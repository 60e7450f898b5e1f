/** The review of a docket submission and the judge-assignment hand-off of
    commands/docket_entry.py.

    A submission's case information is a dict; `Draft` holds the keys the flow reads,
    each of which may be missing, None, or a string. A review (Accept / Deny / Edit on
    one draft) is a `Review` object: the buttons' callbacks share the draft dict, which
    the edit modal overwrites in place. An assignment proposal is an `Assignment`
    object: a judge's Deny grows its `last_denied` list and posts the proposal again,
    which the object models by starting its next round. */
module DocketEntry {
  import opened Text
  import opened Cells
  import opened CaseStore

  // ---------------------------------------------------------------- the case-info dict

  /** What a dict holds under a key: no entry, None, or a string. */
  datatype Field = Absent | Null | Str(text: string)

  /** `d.get(key, default)`: a missing key reads as the default. */
  function FieldOr(f: Field, default: string): (r: Field)
    ensures r != Absent
    ensures f != Absent ==> r == f
  {
    if f.Absent? then Str(default) else f
  }

  /** The cell add_to_docket writes for a value read with `.get(key, "")`: a None
      value is sent as JSON null, which leaves the cell empty. */
  function CellText(f: Field): string {
    if f.Str? then f.text else ""
  }

  /** Python truthiness of a value: a non-empty string. */
  predicate Truthy(f: Field) {
    f.Str? && f.text != ""
  }

  /** The keys of the case-info dict the review reads. */
  datatype Draft = Draft(success: bool, caseName: Field, caseNumber: Field, caseType: Field)

  /** The case information the testing mode uses instead of reading the document. */
  const TestingDraft := Draft(true, Str("SD v. Ed"), Str("Crim 193"), Str("Criminal"))

  /** What get_gdoccase_info returns when the document cannot be fetched. */
  function FetchFailed(): Draft {
    Draft(false, Null, Null, Null)
  }

  /** What the listener uses when get_gdoccase_info raised. */
  function FetchRaised(): Draft {
    Draft(false, Absent, Absent, Absent)
  }

  /** What get_gdoccase_info guarantees: a successful draft carries its number as a
      string (get_available_case_number either returns one or raises). */
  predicate Drafted(d: Draft) {
    d.success ==> d.caseNumber.Str?
  }

  // ---------------------------------------------------------------- who may act

  /** The reviewer gate of the review buttons and of the manual add command: when no
      reviewer ids are configured everyone passes, otherwise only the configured ids. */
  predicate ReviewerAllowed(reviewers: set<int>, user: int): (ok: bool)
    ensures reviewers == {} ==> ok
    ensures reviewers != {} ==> (ok <==> user in reviewers)
  {
    !(reviewers != {} && user !in reviewers)
  }

  // ---------------------------------------------------------------- arrival of a submission

  /** What the listener does with a message. */
  datatype Arrival = Ignored | NoLink | Acknowledged | Reviewing(link: string, draft: Draft)

  /** The case information the listener works on: the testing draft, what
      get_gdoccase_info returned, or the failure dict it builds when that raised. */
  function CaseInfoFor(testing: bool, fetched: Outcome<Draft>): (d: Draft)
    ensures !d.success ==> testing == false
    ensures fetched.Raised? && !testing ==> d == FetchRaised()
  {
    if testing then TestingDraft
    else match fetched
      case Ok(d) => d
      case Raised(_) => FetchRaised()
  }

  /** The case type is "SC" once upper-cased. */
  predicate IsScPetition(d: Draft) {
    d.caseType.Str? && Upper(d.caseType.text) == "SC"
  }

  /** on_message as written: messages from the bot or outside the submission channel
      and messages without a document link are dropped, an SC petition is only
      acknowledged, and every other submission goes to review under its first link.
      The SC test upper-cases `case_info.get("case_type", "")`, which raises when the
      dict holds None there. */
  function OnMessageAsWritten(fromBot: bool, inSubmissionChannel: bool, links: seq<string>,
                              testing: bool, fetched: Outcome<Draft>): (r: Outcome<Arrival>)
    ensures r.Raised? <==> !fromBot && inSubmissionChannel && links != []
                             && CaseInfoFor(testing, fetched).caseType.Null?
  {
    if fromBot || !inSubmissionChannel then Ok(Ignored)
    else if links == [] then Ok(NoLink)
    else
      var d := CaseInfoFor(testing, fetched);
      match FieldOr(d.caseType, "")
      case Str(t) => if Upper(t) == "SC" then Ok(Acknowledged) else Ok(Reviewing(links[0], d))
      case _ => Raised("'NoneType' object has no attribute 'upper'")
  }

  /** on_message with a None case type read as no type: such a submission goes to
      review, where it is shown as one whose details could not be extracted. */
  function OnMessage(fromBot: bool, inSubmissionChannel: bool, links: seq<string>,
                     testing: bool, fetched: Outcome<Draft>): (r: Arrival)
    ensures r == Ignored <==> fromBot || !inSubmissionChannel
    ensures r == NoLink <==> !fromBot && inSubmissionChannel && links == []
    ensures r == Acknowledged <==> !fromBot && inSubmissionChannel && links != []
                                   && IsScPetition(CaseInfoFor(testing, fetched))
    ensures r.Reviewing? ==> links != [] && r.link == links[0] && r.draft == CaseInfoFor(testing, fetched)
  {
    if fromBot || !inSubmissionChannel then Ignored
    else if links == [] then NoLink
    else if IsScPetition(CaseInfoFor(testing, fetched)) then Acknowledged
    else Reviewing(links[0], CaseInfoFor(testing, fetched))
  }

  /** Where the case type is not None the listener as written and the corrected one agree. */
  lemma OnMessageAgrees(fromBot: bool, inSubmissionChannel: bool, links: seq<string>,
                        testing: bool, fetched: Outcome<Draft>)
    requires !CaseInfoFor(testing, fetched).caseType.Null?
    ensures OnMessageAsWritten(fromBot, inSubmissionChannel, links, testing, fetched)
         == Ok(OnMessage(fromBot, inSubmissionChannel, links, testing, fetched))
  {
    var d := CaseInfoFor(testing, fetched);
    if d.caseType.Absent? {
      assert Upper("") == "";
    }
  }

  /** A document that cannot be fetched makes the listener as written raise, so its
      submission is never reviewed. */
  lemma FetchFailureCrashes(link: string)
    ensures OnMessageAsWritten(false, true, [link], false, Ok(FetchFailed())).Raised?
  {
  }

  /** The corrected listener sends that submission to review, whose Accept then refuses it. */
  lemma FetchFailureReviewed(links: seq<string>)
    requires links != []
    ensures OnMessage(false, true, links, false, Ok(FetchFailed())) == Reviewing(links[0], FetchFailed())
    ensures !OnMessage(false, true, links, false, Ok(FetchFailed())).draft.success
  {
  }

  /** What the `add` command does. */
  datatype ManualArrival = WrongChannel | NotAllowed | BadLink | ExtractError(message: string)
                         | Undetected | ManualReview(link: string, draft: Draft)

  /** manual_add_case: only in the review channel, only for a reviewer, only for a
      Google Docs link, and only when the case details were extracted. */
  function ManualAdd(inReviewChannel: bool, reviewers: set<int>, user: int, link: Option<string>,
                     fetched: Outcome<Draft>): (r: ManualArrival)
    ensures r.ManualReview? <==> inReviewChannel && ReviewerAllowed(reviewers, user) && link.Some?
                                 && StartsWith(link.value, "https://docs.google.com/")
                                 && fetched.Ok? && fetched.value.success
    ensures r.ManualReview? ==> Some(r.link) == link && Ok(r.draft) == fetched
    ensures r == NotAllowed <==> inReviewChannel && !ReviewerAllowed(reviewers, user)
  {
    if !inReviewChannel then WrongChannel
    else if !ReviewerAllowed(reviewers, user) then NotAllowed
    else if link.None? || link.value == "" || !StartsWith(link.value, "https://docs.google.com/") then BadLink
    else match fetched
      case Raised(e) => ExtractError("Error extracting case info: " + e)
      case Ok(d) => if !d.success then Undetected else ManualReview(link.value, d)
  }

  // ---------------------------------------------------------------- the review embed

  datatype ReviewStatus = Open | Accepted | Denied

  /** The title and colour of the review message. */
  function Banner(status: ReviewStatus, edited: bool): (string, int) {
    match status
    case Open => if edited then ("Docket Entry Review (Edited)", 0x000080) else ("Docket Entry Review", 0xFFFFFF)
    case Accepted => ("Docket Entry Review - ACCEPTED", 0x00FF00)
    case Denied => ("Docket Entry Review - DENIED", 0xFFFF00)
  }

  /** The review message tells its states apart, and an open review whether it was edited. */
  lemma BannerShowsState(s1: ReviewStatus, e1: bool, s2: ReviewStatus, e2: bool)
    requires Banner(s1, e1).0 == Banner(s2, e2).0
    ensures s1 == s2
    ensures s1 == Open ==> e1 == e2
  {
    var t1, t2 := Banner(s1, e1).0, Banner(s2, e2).0;
    assert t1[|t1| - 1] == t2[|t2| - 1];
    assert |t1| == |t2|;
  }

  // ---------------------------------------------------------------- accepting a draft

  /** The record accept_callback sends to add_to_docket: the draft with the status
      "PT Not assigned", the judge "NA", and the review's filing date and link. */
  function AcceptedRecord(d: Draft, filingDate: string, gdocLink: string): CaseRecord {
    CaseRecord("NA", "PT Not assigned", CellText(d.caseName), CellText(d.caseNumber), filingDate, gdocLink)
  }

  /** The case information an assignment works from. */
  datatype Brief = Brief(caseName: Field, caseStatus: Field, filingDate: Field, filingLink: Field, link: Field)

  /** The case information accept_callback hands to assign_case, so that it need not
      read the sheet again. */
  function HandOff(d: Draft, filingDate: string, gdocLink: string): (b: Brief)
    ensures Stage(b) == Str("Pre-Trial")
    ensures KnownLink(b) == if gdocLink != "" then Some(gdocLink) else None
  {
    Brief(if d.caseName.Absent? then Null else d.caseName, Str("PT Not assigned"), Str(filingDate), Str(gdocLink), Absent)
  }

  /** The case information assign_case reads when none is handed to it. */
  function BriefOf(l: Lookup): Brief {
    match l
    case Found(info) =>
      Brief(Str(info.caseName), Str(info.caseStatus),
            if info.filingDate.Some? then Str(info.filingDate.value) else Null, Absent,
            if info.link.Some? then Str(info.link.value) else Null)
    case Missing(_) => Brief(Absent, Absent, Absent, Absent, Absent)
  }

  /** The case stage the proposal shows. */
  function Stage(b: Brief): (r: Field)
    ensures b.caseStatus == Str("PT Not assigned") ==> r == Str("Pre-Trial")
    ensures b.caseStatus != Str("PT Not assigned") && b.caseStatus != Absent ==> r == b.caseStatus
    ensures b.caseStatus == Absent ==> r == Str("N/A")
  {
    if b.caseStatus == Str("PT Not assigned") then Str("Pre-Trial") else FieldOr(b.caseStatus, "N/A")
  }

  /** `case_info.get('filing_link') or case_info.get('link')`, when it is truthy. */
  function KnownLink(b: Brief): (r: Option<string>)
    ensures r.Some? ==> r.value != ""
    ensures r.Some? <==> Truthy(b.filingLink) || Truthy(b.link)
    ensures Truthy(b.filingLink) ==> r == Some(b.filingLink.text)
  {
    if Truthy(b.filingLink) then Some(b.filingLink.text)
    else if Truthy(b.link) then Some(b.link.text)
    else None
  }

  /** After the add, the counter of the draft's case type is advanced; a draft whose
      type is None makes `.lower()` raise, and that error is swallowed like any other. */
  function Advanced(cfg: Config, counters: map<string, string>, caseType: Field): (r: map<string, string>)
    ensures caseType.Null? ==> r == counters
    ensures forall ref :: ref in counters ==> ref in r
  {
    match FieldOr(caseType, "")
    case Str(t) =>
      (match NextCounter(cfg, counters, None, Lower(t))
       case Ok((ref, text)) => counters[ref := text]
       case Raised(_) => counters)
    case _ => counters
  }

  /** The counter update of accept_callback, with the store reachable. */
  method AdvanceCounter(store: Spreadsheet, caseType: Field)
    requires store.fault.None?
    modifies store`counters
    ensures store.counters == Advanced(store.cfg, old(store.counters), caseType)
  {
    match FieldOr(caseType, "")
    case Str(t) => var _ := store.IncrementAvailableCaseNumber(Lower(t));
    case _ =>
  }

  // ---------------------------------------------------------------- judge assignment

  /** The one judge get_free_judge proposes. */
  const ProposedJudge: int := 1272553776154411103

  /** get_free_judge: the same judge whatever was denied. It returns an int, so
      assign_case's comparison with the string "No Judges Available" never holds. */
  function FreeJudge(lastDenied: seq<int>): int {
    ProposedJudge
  }

  /** get_judge_name. */
  function JudgeNameOf(judge: int): string {
    "Ed"
  }

  /** The fields the judge's Accept sends to edit_docket: the judge's name, the status
      "In Pre-Trial", and the filing link when one is known. */
  function JudgeChanges(link: Option<string>): seq<(string, string)> {
    if link.Some? then [("judge", JudgeNameOf(ProposedJudge)), ("case_status", "In Pre-Trial"), ("filing_link", link.value)]
    else [("judge", JudgeNameOf(ProposedJudge)), ("case_status", "In Pre-Trial")]
  }

  /** What edit_docket writes for those fields: column A the judge, column B the status,
      column F the known link, and nothing else. */
  lemma JudgeChangesColumns(link: Option<string>)
    ensures LastValueFor(JudgeChanges(link), 0) == Some("Ed")
    ensures LastValueFor(JudgeChanges(link), 1) == Some("In Pre-Trial")
    ensures LastValueFor(JudgeChanges(link), 5) == link
    ensures forall c :: 2 <= c < 5 ==> LastValueFor(JudgeChanges(link), c).None?
  {
    JudgeKey();
    StatusKey();
    if link.Some? {
      LinkKey(link.value);
      TripleColumns(("judge", "Ed"), ("case_status", "In Pre-Trial"), ("filing_link", link.value));
    } else {
      PairColumns(("judge", "Ed"), ("case_status", "In Pre-Trial"));
    }
  }

  lemma TripleColumns(a: (string, string), b: (string, string), x: (string, string))
    requires NamedColumn(a) == Some(0) && NamedColumn(b) == Some(1) && NamedColumn(x) == Some(5)
    ensures LastValueFor([a, b, x], 0) == Some(a.1)
    ensures LastValueFor([a, b, x], 1) == Some(b.1)
    ensures LastValueFor([a, b, x], 5) == Some(x.1)
    ensures forall c :: 2 <= c < 5 ==> LastValueFor([a, b, x], c).None?
  {
    LastOfTriple(a, b, x);
  }

  lemma PairColumns(a: (string, string), b: (string, string))
    requires NamedColumn(a) == Some(0) && NamedColumn(b) == Some(1)
    ensures LastValueFor([a, b], 0) == Some(a.1)
    ensures LastValueFor([a, b], 1) == Some(b.1)
    ensures forall c :: 2 <= c <= 5 ==> LastValueFor([a, b], c).None?
  {
    LastOfPair(a, b);
  }

  /** The last values of two changes. */
  lemma LastOfPair(a: (string, string), b: (string, string))
    ensures forall c: nat {:trigger LastValueFor([a, b], c)} ::
      LastValueFor([a, b], c) == (if NamedColumn(b) == Some(c) then Some(b.1) else if NamedColumn(a) == Some(c) then Some(a.1) else None)
  {
    assert [a, b] == [a] + [b];
    LastValueSnoc([a], b);
    assert [a] == [] + [a];
    LastValueSnoc([], a);
  }

  /** The last values of three changes. */
  lemma LastOfTriple(a: (string, string), b: (string, string), x: (string, string))
    ensures forall c: nat {:trigger LastValueFor([a, b, x], c)} ::
      LastValueFor([a, b, x], c) == (if NamedColumn(x) == Some(c) then Some(x.1)
        else if NamedColumn(b) == Some(c) then Some(b.1)
        else if NamedColumn(a) == Some(c) then Some(a.1) else None)
  {
    assert [a, b, x] == [a, b] + [x];
    LastValueSnoc([a, b], x);
    LastOfPair(a, b);
  }

  /** The column of the judge's name. */
  lemma JudgeKey()
    ensures NamedColumn(("judge", "Ed")) == Some(0)
  {
    LowerOfLower("judge");
  }

  /** The column of the status. */
  lemma StatusKey()
    ensures NamedColumn(("case_status", "In Pre-Trial")) == Some(1)
  {
    LowerOfLower("case_status");
  }

  /** The column of the filing link. */
  lemma LinkKey(url: string)
    ensures NamedColumn(("filing_link", url)) == Some(5)
  {
    LowerOfLower("filing_link");
  }

  /** The record once the judge accepted. */
  function AssignedRecord(c: CaseRecord): CaseRecord {
    c.(judge := "Ed", caseStatus := "In Pre-Trial")
  }

  /** The judge's edit of a case that was just added, naming its link, turns the
      appended row into the row of the assigned record, and succeeds. */
  lemma JudgeEditRewrites(rows: seq<Row>, c: CaseRecord)
    requires NoKeyword(c.caseName) && NoKeyword(c.caseNumber) && NoKeyword(c.filingDate)
    requires IsHttp(c.filingLink) && '"' !in c.filingLink
    requires NoHitBefore(View(rows, 6, false), NumberHit(c.caseNumber), Extent(rows, 6))
    ensures EditResult(Append(rows, RecordRow(c)), c.caseNumber, JudgeChanges(Some(c.filingLink)))
         == (Reply(true, "Case '" + c.caseNumber + "' successfully updated."), Append(rows, RecordRow(AssignedRecord(c))))
  {
    assert RecordRow(c)[5] == LinkFormula(c.filingLink);
    assert LinkFormula(c.filingLink) != "" by { FormulaLayout(c.filingLink, "Link"); }
    ShownWithCaption(RecordRow(c), c.filingLink);
    ShownSix(RecordRow(c));
    ShownPlain(c.caseName);
    ShownPlain(c.caseNumber);
    ShownPlain(c.filingDate);
    OverlaidRecord(c);
    EditAppended(rows, RecordRow(c), c.caseNumber, JudgeChanges(Some(c.filingLink)), RecordRow(AssignedRecord(c)));
  }

  /** A row of six cells whose last cell holds something reads for display as its six
      displayed cells. */
  lemma ShownSix(row: Row)
    requires |row| == 6 && row[5] != ""
    ensures |Window(row, 6, false)| == 6
    ensures forall i :: 0 <= i < 6 ==> Window(row, 6, false)[i] == Displayed(row[i])
  {
    assert !Blank(row, 6);
    assert Render(Clip(row, 6), false)[5] != "";
  }

  /** A cell without any HYPERLINK is displayed as it stands. */
  lemma ShownPlain(cell: string)
    requires NoKeyword(cell)
    ensures Displayed(cell) == cell
  {
    VisibleTextPlain(cell);
  }

  /** The judge's fields overlaid on the displayed record give the assigned record's row. */
  lemma OverlaidRecord(c: CaseRecord)
    requires IsHttp(c.filingLink)
    requires |Window(RecordRow(c), 6, false)| == 6
    requires Window(RecordRow(c), 6, false)[2] == c.caseName && Window(RecordRow(c), 6, false)[3] == c.caseNumber
    requires Window(RecordRow(c), 6, false)[4] == c.filingDate
    ensures Overlay(Window(RecordRow(c), 6, false), JudgeChanges(Some(c.filingLink))) == Some(RecordRow(AssignedRecord(c)))
  {
    JudgeChangesColumns(Some(c.filingLink));
    OverlayJudged(Window(RecordRow(c), 6, false), JudgeChanges(Some(c.filingLink)), "Ed", "In Pre-Trial", c.filingLink);
  }

  /** Changes that name the judge, the status and a link, and no other column, overlaid
      on six cells. */
  lemma OverlayJudged(w: Row, changes: seq<(string, string)>, judge: string, status: string, url: string)
    requires |w| == 6 && url != ""
    requires LastValueFor(changes, 0) == Some(judge) && LastValueFor(changes, 1) == Some(status)
    requires LastValueFor(changes, 5) == Some(url)
    requires forall c :: 2 <= c < 5 ==> LastValueFor(changes, c).None?
    ensures Overlay(w, changes) == Some([judge, status, w[2], w[3], w[4], LinkFormula(url)])
  {
    assert Fits(w, changes);
    var o := Overlay(w, changes).value;
    assert o[0] == judge && o[1] == status && o[5] == LinkFormula(url);
    assert LastValueFor(changes, 2).None? && LastValueFor(changes, 3).None? && LastValueFor(changes, 4).None?;
    assert o[2] == w[2] && o[3] == w[3] && o[4] == w[4];
    SixCells(o, [judge, status, w[2], w[3], w[4], LinkFormula(url)]);
  }

  /** Two rows of six cells that agree cell by cell are equal. */
  lemma SixCells(a: Row, b: Row)
    requires |a| == 6 && |b| == 6
    requires a[0] == b[0] && a[1] == b[1] && a[2] == b[2] && a[3] == b[3] && a[4] == b[4] && a[5] == b[5]
    ensures a == b
  {
    assert forall i :: 0 <= i < 6 ==> a[i] == b[i];
  }

  /** A case accepted into the docket is found by its number with the status
      "PT Not assigned", the judge "NA", the review's filing date and its link. */
  lemma AcceptedCaseListed(rows: seq<Row>, start: nat, d: Draft, filingDate: string, gdocLink: string)
    requires d.caseNumber.Str? && NoKeyword(d.caseNumber.text)
    requires IsHttp(gdocLink) && '"' !in gdocLink && !IsSpace(gdocLink[|gdocLink| - 1])
    requires NoHitBefore(View(rows, 6, true), LabelHit(d.caseNumber.text), Extent(rows, 6))
    ensures LookupIn(View(Append(rows, RecordRow(AcceptedRecord(d, filingDate, gdocLink))), 6, true), start, d.caseNumber.text)
         == Found(CaseInfo(start + Extent(rows, 6), CellText(d.caseName), "PT Not assigned", Some(filingDate),
                           Some(gdocLink), "NA"))
  {
    AppendThenLookup(rows, start, AcceptedRecord(d, filingDate, gdocLink));
  }

  /** Once the judge accepted, the case is found with the judge's name, the status
      "In Pre-Trial" and its link still in place. */
  lemma AssignedCaseListed(rows: seq<Row>, start: nat, c: CaseRecord)
    requires NoKeyword(c.caseName) && NoKeyword(c.caseNumber) && NoKeyword(c.filingDate)
    requires IsHttp(c.filingLink) && '"' !in c.filingLink && !IsSpace(c.filingLink[|c.filingLink| - 1])
    requires NoHitBefore(View(rows, 6, false), NumberHit(c.caseNumber), Extent(rows, 6))
    requires NoHitBefore(View(rows, 6, true), LabelHit(c.caseNumber), Extent(rows, 6))
    ensures LookupIn(View(EditResult(Append(rows, RecordRow(c)), c.caseNumber, JudgeChanges(Some(c.filingLink))).1, 6, true),
                     start, c.caseNumber)
         == Found(CaseInfo(start + Extent(rows, 6), c.caseName, "In Pre-Trial", Some(c.filingDate),
                           Some(c.filingLink), "Ed"))
  {
    JudgeEditRewrites(rows, c);
    AppendThenLookup(rows, start, AssignedRecord(c));
  }

  // ---------------------------------------------------------------- the review

  /** What a click on Accept leads to. */
  datatype AcceptResult = NotAuthorized | CaseUnknown | AddFailed(message: string) | Added

  /** One posted review and the draft its buttons share. */
  class Review {
    var draft: Draft
    const gdocLink: string
    const filingDate: string
    const messageUrl: string
    const reviewers: set<int>
    var edited: bool
    var status: ReviewStatus

    predicate Valid()
      reads this
    {
      Drafted(draft)
    }

    /** _post_internal_review: an open, unedited review of the draft. */
    constructor(draft: Draft, gdocLink: string, filingDate: string, messageUrl: string, reviewers: set<int>)
      requires Drafted(draft)
      ensures Valid()
      ensures this.draft == draft && this.gdocLink == gdocLink && this.filingDate == filingDate
      ensures this.messageUrl == messageUrl && this.reviewers == reviewers
      ensures !edited && status == Open
    {
      this.draft := draft;
      this.gdocLink := gdocLink;
      this.filingDate := filingDate;
      this.messageUrl := messageUrl;
      this.reviewers := reviewers;
      edited := false;
      status := Open;
    }

    /** accept_callback: a reviewer accepts a draft whose details are known; the record
        is added to the docket, and only when that succeeds is the counter advanced and
        the case handed to assignment. */
    method Accept(store: Spreadsheet, user: int) returns (r: AcceptResult, a: Assignment?)
      requires Valid()
      modifies this`status, store`pending, store`counters
      ensures !ReviewerAllowed(reviewers, user) ==>
        r == NotAuthorized && a == null && status == old(status)
        && store.pending == old(store.pending) && store.counters == old(store.counters)
      ensures ReviewerAllowed(reviewers, user) && !draft.success ==>
        r == CaseUnknown && a == null && status == old(status)
        && store.pending == old(store.pending) && store.counters == old(store.counters)
      ensures ReviewerAllowed(reviewers, user) && draft.success && store.fault.Some? ==>
        r == AddFailed("Error adding to docket: " + store.fault.value) && a == null && status == old(status)
        && store.pending == old(store.pending) && store.counters == old(store.counters)
      ensures ReviewerAllowed(reviewers, user) && draft.success && store.fault.None? ==>
        r == Added && status == Accepted
        && store.pending == Append(old(store.pending), RecordRow(AcceptedRecord(draft, filingDate, gdocLink)))
        && store.counters == Advanced(store.cfg, old(store.counters), draft.caseType)
        && a != null && fresh(a) && a.caseNumber == draft.caseNumber.text
        && a.brief == HandOff(draft, filingDate, gdocLink)
        && a.lastDenied == [] && a.judge == ProposedJudge && a.rounds == 1 && !a.notify && a.status == Proposed
      ensures draft == old(draft)
    {
      if !ReviewerAllowed(reviewers, user) {
        return NotAuthorized, null;
      }
      if !draft.success {
        return CaseUnknown, null;
      }
      var added := store.AddToDocket(AcceptedRecord(draft, filingDate, gdocLink));
      if !added.success {
        return AddFailed(added.message), null;
      }
      status := Accepted;
      AdvanceCounter(store, draft.caseType);
      a := AssignCase(store, draft.caseNumber.text, Some(HandOff(draft, filingDate, gdocLink)), [], false);
      r := Added;
    }

    /** deny_callback: a reviewer closes the review. */
    method Deny(user: int) returns (ok: bool)
      modifies this`status
      ensures ok == ReviewerAllowed(reviewers, user)
      ensures status == if ok then Denied else old(status)
    {
      ok := ReviewerAllowed(reviewers, user);
      if ok {
        status := Denied;
      }
    }

    /** edit_callback and EditCaseModal.on_submit: a reviewer replaces the name and the
        number of the shared draft by the trimmed inputs; nothing else changes. */
    method Edit(user: int, nameInput: string, numberInput: string) returns (ok: bool)
      requires Valid()
      modifies this`draft, this`edited
      ensures Valid()
      ensures ok == ReviewerAllowed(reviewers, user)
      ensures ok ==> draft == old(draft).(caseName := Str(Strip(nameInput)), caseNumber := Str(Strip(numberInput)))
                     && edited
      ensures !ok ==> draft == old(draft) && edited == old(edited)
    {
      ok := ReviewerAllowed(reviewers, user);
      if ok {
        draft := draft.(caseName := Str(Strip(nameInput)), caseNumber := Str(Strip(numberInput)));
        edited := true;
      }
    }
  }

  // ---------------------------------------------------------------- the assignment

  datatype ProposalStatus = Proposed | Assigned

  /** What a judge's click leads to; an accepted assignment reports the case as read
      again for the message it came from, when it has one. */
  datatype JudgeReply = NotYourCase | UpdateFailed(message: string) | AssignedTo(judgeName: string, refreshed: Option<CaseInfo>)
                      | Reproposed

  /** The case as read again after the judge accepted, when the caller asked for it. */
  function Refreshed(notify: bool, l: Lookup): Option<CaseInfo> {
    if notify && l.Found? then Some(l.info) else None
  }

  /** update_notify's read of the case after the judge accepted, when it was asked for. */
  method Reread(store: Spreadsheet, caseNumber: string, notify: bool) returns (o: Option<CaseInfo>)
    ensures o == Refreshed(notify, store.LookupNow(caseNumber))
  {
    o := None;
    if notify {
      var l := store.GetCaseInfoFromNumber(caseNumber);
      o := Refreshed(notify, l);
    }
  }

  /** One case's assignment proposals: the judge proposed now and the judges that denied. */
  class Assignment {
    const caseNumber: string
    const brief: Brief
    var lastDenied: seq<int>
    var judge: int
    var notify: bool
    var rounds: nat
    var status: ProposalStatus

    /** The proposed judge is the one get_free_judge picks for the denied list. */
    predicate Valid()
      reads this
    {
      judge == FreeJudge(lastDenied)
    }

    /** assign_case posts a proposal to the judge get_free_judge picks. */
    constructor(caseNumber: string, brief: Brief, lastDenied: seq<int>, notify: bool)
      ensures this.caseNumber == caseNumber && this.brief == brief && this.lastDenied == lastDenied
      ensures Valid()
      ensures this.notify == notify && judge == ProposedJudge && rounds == 1 && status == Proposed
    {
      this.caseNumber := caseNumber;
      this.brief := brief;
      this.lastDenied := lastDenied;
      this.notify := notify;
      judge := FreeJudge(lastDenied);
      rounds := 1;
      status := Proposed;
    }

    /** The accept callback: only the proposed judge may accept; the docket row gets the
        judge's name and "In Pre-Trial", and the known link is written again. A failed
        update leaves the proposal open. `edit` is edit_docket's reply, when it was asked. */
    method Accept(store: Spreadsheet, caller: int) returns (r: JudgeReply, edit: Option<Reply>)
      modifies this`status, store`pending
      ensures caller != judge ==>
        r == NotYourCase && edit == None && status == old(status) && store.pending == old(store.pending)
      ensures caller == judge ==> edit.Some?
      ensures caller == judge && store.fault.Some? ==>
        r == UpdateFailed("Error updating docket: " + store.fault.value) && status == old(status)
        && store.pending == old(store.pending)
      ensures caller == judge && store.fault.None? ==>
        (edit.value, store.pending) == EditResult(old(store.pending), caseNumber, JudgeChanges(KnownLink(brief)))
      ensures caller == judge && store.fault.None? && edit.value.success ==>
        status == Assigned && r == AssignedTo(JudgeNameOf(judge), Refreshed(notify, store.LookupNow(caseNumber)))
      ensures caller == judge && store.fault.None? && !edit.value.success ==>
        status == old(status) && r == UpdateFailed(edit.value.message)
    {
      if caller != judge {
        return NotYourCase, None;
      }
      var result := store.EditDocket(caseNumber, JudgeChanges(KnownLink(brief)));
      edit := Some(result);
      if !result.success {
        return UpdateFailed(result.message), edit;
      }
      status := Assigned;
      var refreshed := Reread(store, caseNumber, notify);
      r := AssignedTo(JudgeNameOf(judge), refreshed);
    }

    /** The deny callback: only the proposed judge may deny; the judge joins the denied
        list and the case is proposed again from the same case information, without the
        message to refresh. get_free_judge ignores the list: the same judge is proposed. */
    method Deny(caller: int) returns (r: JudgeReply)
      requires Valid()
      modifies this`lastDenied, this`judge, this`notify, this`rounds
      ensures caller != old(judge) ==>
        r == NotYourCase && lastDenied == old(lastDenied) && judge == old(judge)
        && notify == old(notify) && rounds == old(rounds)
      ensures caller == old(judge) ==>
        r == Reproposed && lastDenied == old(lastDenied) + [old(judge)] && judge == FreeJudge(lastDenied)
        && !notify && rounds == old(rounds) + 1
      ensures Valid() && judge == old(judge)
    {
      if caller != judge {
        return NotYourCase;
      }
      lastDenied := lastDenied + [judge];
      judge := FreeJudge(lastDenied);
      notify := false;
      rounds := rounds + 1;
      r := Reproposed;
    }
  }

  /** assign_case: the case information handed in, or else the one read by number, and a
      proposal to the judge get_free_judge picks. */
  method AssignCase(store: Spreadsheet, caseNumber: string, given: Option<Brief>, lastDenied: seq<int>, notify: bool)
    returns (a: Assignment)
    ensures fresh(a)
    ensures a.caseNumber == caseNumber && a.lastDenied == lastDenied && a.notify == notify
    ensures a.brief == if given.Some? then given.value else BriefOf(store.LookupNow(caseNumber))
    ensures a.judge == ProposedJudge && a.rounds == 1 && a.status == Proposed
  {
    var brief: Brief;
    if given.Some? {
      brief := given.value;
    } else {
      var l := store.GetCaseInfoFromNumber(caseNumber);
      brief := BriefOf(l);
    }
    a := new Assignment(caseNumber, brief, lastDenied, notify);
  }
}
