/** `src/pages/Community.tsx`: the feedback form's validation, the changelog
    counters, and the staff's per-item drafts of a status and a response. */
module CommunityPage {
  import opened Wrappers

  datatype FeedbackType = Suggestion | Issue

  datatype FeedbackStatus = Pending | Reviewing | Done | Rejected

  /** The `CommunityFeedback` fields the page reads. */
  datatype Feedback = Feedback(
    id: string,
    kind: FeedbackType,
    title: string,
    description: string,
    status: FeedbackStatus,
    staffResponse: Option<string>)

  // ---------------------------------------------------------------------------
  // feedbackSchema
  // ---------------------------------------------------------------------------

  /** The form as typed: the type is the radio group's text, if any. */
  datatype FeedbackDraft = FeedbackDraft(kind: Option<string>, title: string, description: string)

  /** The values the schema lets through. */
  datatype FeedbackValues = FeedbackValues(kind: FeedbackType, title: string, description: string)

  /** The rules `feedbackSchema` checks, one per message. */
  datatype Issue =
    | TypeRequired
    | TitleTooShort
    | TitleTooLong
    | DescriptionTooShort
    | DescriptionTooLong

  const TitleMin: nat := 3
  const TitleMax: nat := 120
  const DescriptionMin: nat := 10
  const DescriptionMax: nat := 2000

  function TypeOf(text: Option<string>): (r: Option<FeedbackType>)
    ensures r == Some(Suggestion) <==> text == Some("suggestion")
    ensures r == Some(Issue) <==> text == Some("issue")
  {
    if text == Some("suggestion") then Some(Suggestion)
    else if text == Some("issue") then Some(Issue)
    else None
  }

  /** The issues of a draft, in the order of the schema's fields. */
  function IssuesOf(draft: FeedbackDraft): (r: seq<Issue>)
    ensures TypeRequired in r <==> TypeOf(draft.kind).None?
    ensures TitleTooShort in r <==> |draft.title| < TitleMin
    ensures TitleTooLong in r <==> |draft.title| > TitleMax
    ensures DescriptionTooShort in r <==> |draft.description| < DescriptionMin
    ensures DescriptionTooLong in r <==> |draft.description| > DescriptionMax
  {
    (if TypeOf(draft.kind).None? then [TypeRequired] else [])
    + (if |draft.title| < TitleMin then [TitleTooShort] else [])
    + (if |draft.title| > TitleMax then [TitleTooLong] else [])
    + (if |draft.description| < DescriptionMin then [DescriptionTooShort] else [])
    + (if |draft.description| > DescriptionMax then [DescriptionTooLong] else [])
  }

  /** `feedbackSchema`: a type of "suggestion" or "issue", a title of 3 to 120
      characters and a description of 10 to 2000; otherwise every failed
      rule. */
  function ValidateFeedback(draft: FeedbackDraft): (r: Result<FeedbackValues, seq<Issue>>)
    ensures r.Success? <==>
              && (draft.kind == Some("suggestion") || draft.kind == Some("issue"))
              && TitleMin <= |draft.title| <= TitleMax
              && DescriptionMin <= |draft.description| <= DescriptionMax
    ensures r.Success? ==> Some(r.value.kind) == TypeOf(draft.kind)
                           && r.value.title == draft.title && r.value.description == draft.description
    ensures r.Failure? ==> r.error == IssuesOf(draft) && |r.error| > 0
  {
    var issues := IssuesOf(draft);
    if issues == [] then Success(FeedbackValues(TypeOf(draft.kind).value, draft.title, draft.description))
    else Failure(issues)
  }

  /** The form's default values. */
  const EmptyForm: FeedbackDraft := FeedbackDraft(Some("suggestion"), "", "")

  /** After a successful submit the form is cleared, keeping the chosen type. */
  function ResetAfterSubmit(values: FeedbackValues): (r: FeedbackDraft)
    ensures TypeOf(r.kind) == Some(values.kind)
    ensures r.title == "" && r.description == ""
  {
    FeedbackDraft(Some(match values.kind case Suggestion => "suggestion" case Issue => "issue"), "", "")
  }

  /** The cleared form cannot be sent again as it is: both texts are too short,
      while the type is still accepted. */
  lemma ResetFormNeedsNewTexts(values: FeedbackValues)
    ensures ValidateFeedback(ResetAfterSubmit(values)) == Failure([TitleTooShort, DescriptionTooShort])
    ensures ValidateFeedback(EmptyForm) == Failure([TitleTooShort, DescriptionTooShort])
  {
    var reset := ResetAfterSubmit(values);
    assert TypeOf(reset.kind).Some?;
    assert IssuesOf(reset) == [] + [TitleTooShort] + [] + [DescriptionTooShort] + [];
    assert IssuesOf(reset) == [TitleTooShort, DescriptionTooShort];
  }

  // ---------------------------------------------------------------------------
  // feedbackSummary
  // ---------------------------------------------------------------------------

  datatype Summary = Summary(total: nat, issues: nat, suggestions: nat)

  /** The number of items of type "issue". */
  function CountIssues(items: seq<Feedback>): (n: nat)
    ensures n <= |items|
  {
    if items == [] then 0
    else CountIssues(items[..|items| - 1]) + (if items[|items| - 1].kind == Issue then 1 else 0)
  }

  /** `feedbackSummary`: zeros without a changelog; otherwise one count per
      item, split into issues and everything else. */
  method FeedbackSummary(changelog: Option<seq<Feedback>>) returns (summary: Summary)
    ensures changelog.None? ==> summary == Summary(0, 0, 0)
    ensures changelog.Some? ==>
              && summary.total == |changelog.value|
              && summary.issues == CountIssues(changelog.value)
              && summary.suggestions == |changelog.value| - CountIssues(changelog.value)
    ensures summary.total == summary.issues + summary.suggestions
  {
    if changelog.None? || |changelog.value| == 0 {
      return Summary(0, 0, 0);
    }
    var items := changelog.value;
    var total: nat, issues: nat, suggestions: nat := 0, 0, 0;
    var i := 0;
    while i < |items|
      invariant 0 <= i <= |items|
      invariant total == i && issues == CountIssues(items[..i]) && suggestions == i - issues
    {
      assert items[..i + 1][..i] == items[..i];
      total := total + 1;
      if items[i].kind == Issue {
        issues := issues + 1;
      } else {
        suggestions := suggestions + 1;
      }
      i := i + 1;
    }
    assert items[..i] == items;
    summary := Summary(total, issues, suggestions);
  }

  /** Adding an item adds one to the total and one to exactly one of the two
      counters. */
  lemma OneMoreItem(items: seq<Feedback>, item: Feedback)
    ensures CountIssues(items + [item]) == CountIssues(items) + (if item.kind == Issue then 1 else 0)
  {
    assert (items + [item])[..|items|] == items;
  }

  // ---------------------------------------------------------------------------
  // The staff's drafts
  // ---------------------------------------------------------------------------

  /** `statusDrafts` and `responseDrafts`, keyed by feedback id. */
  datatype Drafts = Drafts(statusDrafts: map<string, FeedbackStatus>, responseDrafts: map<string, string>)

  const NoDrafts: Drafts := Drafts(map[], map[])

  /** The status select shows the draft, else the stored status. */
  function DisplayedStatus(drafts: Drafts, item: Feedback): (r: FeedbackStatus)
    ensures item.id in drafts.statusDrafts ==> r == drafts.statusDrafts[item.id]
    ensures item.id !in drafts.statusDrafts ==> r == item.status
  {
    if item.id in drafts.statusDrafts then drafts.statusDrafts[item.id] else item.status
  }

  /** The response box shows the draft, else the stored response, else "". */
  function DisplayedResponse(drafts: Drafts, item: Feedback): (r: string)
    ensures item.id in drafts.responseDrafts ==> r == drafts.responseDrafts[item.id]
    ensures item.id !in drafts.responseDrafts ==> r == item.staffResponse.GetOr("")
  {
    if item.id in drafts.responseDrafts then drafts.responseDrafts[item.id] else item.staffResponse.GetOr("")
  }

  /** Choosing a status for one item. */
  function DraftStatus(drafts: Drafts, id: string, value: FeedbackStatus): (r: Drafts)
    ensures r.statusDrafts == drafts.statusDrafts[id := value] && r.responseDrafts == drafts.responseDrafts
  {
    drafts.(statusDrafts := drafts.statusDrafts[id := value])
  }

  /** Typing a response for one item. */
  function DraftResponse(drafts: Drafts, id: string, text: string): (r: Drafts)
    ensures r.responseDrafts == drafts.responseDrafts[id := text] && r.statusDrafts == drafts.statusDrafts
  {
    drafts.(responseDrafts := drafts.responseDrafts[id := text])
  }

  /** "Descartar alterações", and a successful save: the item's drafts go,
      every other item's drafts stay as they were. */
  function Discard(drafts: Drafts, id: string): (r: Drafts)
    ensures id !in r.statusDrafts && id !in r.responseDrafts
    ensures forall k :: k != id ==> (k in r.statusDrafts <==> k in drafts.statusDrafts)
    ensures forall k :: k != id ==> (k in r.responseDrafts <==> k in drafts.responseDrafts)
    ensures forall k :: k in r.statusDrafts ==> r.statusDrafts[k] == drafts.statusDrafts[k]
    ensures forall k :: k in r.responseDrafts ==> r.responseDrafts[k] == drafts.responseDrafts[k]
  {
    Drafts(drafts.statusDrafts - {id}, drafts.responseDrafts - {id})
  }

  /** The update the save button sends. */
  datatype UpdateRequest = UpdateRequest(id: string, status: FeedbackStatus, staffResponse: Option<string>)

  /** The save button: the drafted status, else the stored one; the drafted
      response, else the stored one, else `null`. */
  function SaveRequest(drafts: Drafts, item: Feedback): (r: UpdateRequest)
    ensures r.id == item.id && r.status == DisplayedStatus(drafts, item)
    ensures item.id in drafts.responseDrafts ==> r.staffResponse == Some(drafts.responseDrafts[item.id])
    ensures item.id !in drafts.responseDrafts ==> r.staffResponse == item.staffResponse
  {
    UpdateRequest(
      item.id,
      if item.id in drafts.statusDrafts then drafts.statusDrafts[item.id] else item.status,
      if item.id in drafts.responseDrafts then Some(drafts.responseDrafts[item.id]) else item.staffResponse)
  }

  /** What is saved is what is shown, except that an item with neither a
      draft nor a stored response shows "" and saves `null`. */
  lemma SaveMatchesDisplay(drafts: Drafts, item: Feedback)
    ensures SaveRequest(drafts, item).status == DisplayedStatus(drafts, item)
    ensures SaveRequest(drafts, item).staffResponse.GetOr("") == DisplayedResponse(drafts, item)
    ensures SaveRequest(drafts, item).staffResponse.None? <==>
              item.id !in drafts.responseDrafts && item.staffResponse.None?
  {
  }

  /** Drafting for one item neither changes what another item shows nor what
      it would save. */
  lemma DraftsAreIndependent(drafts: Drafts, id: string, status: FeedbackStatus, text: string, other: Feedback)
    requires other.id != id
    ensures var d := DraftResponse(DraftStatus(drafts, id, status), id, text);
            && DisplayedStatus(d, other) == DisplayedStatus(drafts, other)
            && DisplayedResponse(d, other) == DisplayedResponse(drafts, other)
            && SaveRequest(d, other) == SaveRequest(drafts, other)
  {
  }

  /** After drafting and discarding, the item shows and would save its stored
      values again, whatever it showed before. */
  lemma DiscardRestoresStored(drafts: Drafts, item: Feedback, status: FeedbackStatus, text: string)
    ensures var d := Discard(DraftResponse(DraftStatus(drafts, item.id, status), item.id, text), item.id);
            && DisplayedStatus(d, item) == item.status
            && DisplayedResponse(d, item) == item.staffResponse.GetOr("")
            && SaveRequest(d, item) == UpdateRequest(item.id, item.status, item.staffResponse)
  {
  }

  /** Saving right after drafting sends the drafted values. */
  lemma SaveSendsDrafts(drafts: Drafts, item: Feedback, status: FeedbackStatus, text: string)
    ensures SaveRequest(DraftResponse(DraftStatus(drafts, item.id, status), item.id, text), item)
         == UpdateRequest(item.id, status, Some(text))
  {
  }
}
