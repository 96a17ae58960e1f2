/** The save workflow of the table: each draft is wrapped as a record input `{ fields }` and
    sent to the record-update call; once all calls settle, one toast says how it went and a
    refresh follows a full success. Platform calls appear as effects in a log. */
module SaveWorkflow {
  import opened JsValues

  /** What the component asks of the platform, in the order it asks. */
  datatype Effect =
    | FetchRecords(searchText: string)
    | UpdateRecord(recordInput: Row)
    | Toast(title: string, message: string, variant: string)
    | Refresh

  const SuccessToast := Toast("Success", "Records Updated Successfully!!", "success")
  const ErrorToast := Toast("Error", "An Error Occured!!", "error")

  /** `{ fields: Object.assign({}, draft) }`. */
  function RecordInput(draft: Row): (r: Row)
    ensures r.Keys == {"fields"}
    ensures DraftOf(r) == Some(draft)
  {
    map["fields" := Obj(draft)]
  }

  /** The draft a record input carries, if it has the shape of one. */
  function DraftOf(input: Row): Option<Row> {
    if "fields" in input && input["fields"].Obj? then Some(input["fields"].fields) else None
  }

  /** One record input per draft, in draft order. */
  function RecordInputs(drafts: seq<Row>): (r: seq<Row>)
    ensures |r| == |drafts|
    ensures forall i :: 0 <= i < |r| ==> DraftOf(r[i]) == Some(drafts[i])
  {
    seq(|drafts|, i requires 0 <= i < |drafts| => RecordInput(drafts[i]))
  }

  /** The update calls issued for the record inputs, one each, in order. */
  function UpdateCalls(inputs: seq<Row>): seq<Effect> {
    seq(|inputs|, i requires 0 <= i < |inputs| => UpdateRecord(inputs[i]))
  }

  /** `Promise.all` resolves only when every update succeeds. */
  predicate AllSucceeded(outcomes: seq<bool>) {
    forall i :: 0 <= i < |outcomes| ==> outcomes[i]
  }

  /** What happens once the updates settle: on full success a success toast and a refresh
      (whose failure is caught like an update failure, with an error toast); on any failed
      update an error toast alone. */
  function Settle(outcomes: seq<bool>, refreshOk: bool): seq<Effect> {
    if AllSucceeded(outcomes) then
      [SuccessToast, Refresh] + (if refreshOk then [] else [ErrorToast])
    else
      [ErrorToast]
  }

  /** Everything `saveHandleAction` asks of the platform, given the outcome of each update
      and of the refresh: first exactly one update per draft, in draft order, each carrying
      its draft as `fields`; after them no update at all. */
  function SaveLog(drafts: seq<Row>, outcomes: seq<bool>, refreshOk: bool): (r: seq<Effect>)
    ensures |r| > |drafts|
    ensures forall i :: 0 <= i < |drafts| ==> r[i].UpdateRecord? && DraftOf(r[i].recordInput) == Some(drafts[i])
    ensures forall i :: |drafts| <= i < |r| ==> !r[i].UpdateRecord?
  {
    UpdateCalls(RecordInputs(drafts)) + Settle(outcomes, refreshOk)
  }

  /** Occurrences of `e` in a log. */
  function Count(log: seq<Effect>, e: Effect): nat {
    if log == [] then 0 else (if log[0] == e then 1 else 0) + Count(log[1..], e)
  }

  lemma {:induction false} CountConcat(a: seq<Effect>, b: seq<Effect>, e: Effect)
    ensures Count(a + b, e) == Count(a, e) + Count(b, e)
  {
    if a != [] {
      assert (a + b)[1..] == a[1..] + b;
      CountConcat(a[1..], b, e);
    } else {
      assert a + b == b;
    }
  }

  lemma {:induction false} CountAbsent(a: seq<Effect>, e: Effect)
    requires e !in a
    ensures Count(a, e) == 0
  {
    if a != [] {
      CountAbsent(a[1..], e);
    }
  }

  /** Counting toasts and refreshes in a save: the update calls contribute none, so the
      counts are those of the settling step. */
  lemma CountSaveLog(drafts: seq<Row>, outcomes: seq<bool>, refreshOk: bool, e: Effect)
    requires !e.UpdateRecord?
    ensures Count(SaveLog(drafts, outcomes, refreshOk), e) == Count(Settle(outcomes, refreshOk), e)
  {
    var updates := UpdateCalls(RecordInputs(drafts));
    CountConcat(updates, Settle(outcomes, refreshOk), e);
    CountAbsent(updates, e);
  }

  /** Exactly one refresh when every update succeeds, none otherwise. */
  lemma SaveRefreshesOnceIff(drafts: seq<Row>, outcomes: seq<bool>, refreshOk: bool)
    ensures Count(SaveLog(drafts, outcomes, refreshOk), Refresh) == if AllSucceeded(outcomes) then 1 else 0
  {
    CountSaveLog(drafts, outcomes, refreshOk, Refresh);
    var settle := Settle(outcomes, refreshOk);
    assert settle == [settle[0]] + settle[1..];
    if AllSucceeded(outcomes) {
      assert settle[1..] == [Refresh] + settle[2..];
      CountAbsent(settle[2..], Refresh);
    }
  }

  /** One success toast when every update succeeds, none otherwise. */
  lemma SaveSuccessToastIff(drafts: seq<Row>, outcomes: seq<bool>, refreshOk: bool)
    ensures Count(SaveLog(drafts, outcomes, refreshOk), SuccessToast) == if AllSucceeded(outcomes) then 1 else 0
  {
    CountSaveLog(drafts, outcomes, refreshOk, SuccessToast);
    var settle := Settle(outcomes, refreshOk);
    assert settle == [settle[0]] + settle[1..];
    CountAbsent(settle[1..], SuccessToast);
  }

  /** One error toast when some update fails or the refresh fails, none otherwise. */
  lemma SaveErrorToastIff(drafts: seq<Row>, outcomes: seq<bool>, refreshOk: bool)
    ensures Count(SaveLog(drafts, outcomes, refreshOk), ErrorToast)
         == if AllSucceeded(outcomes) && refreshOk then 0 else 1
  {
    CountSaveLog(drafts, outcomes, refreshOk, ErrorToast);
    var settle := Settle(outcomes, refreshOk);
    if AllSucceeded(outcomes) {
      CountConcat([SuccessToast, Refresh], if refreshOk then [] else [ErrorToast], ErrorToast);
      CountAbsent([SuccessToast, Refresh], ErrorToast);
    }
  }

  /** A failed update leaves nothing after the update calls but the one error toast. */
  lemma SaveFailureIsOneErrorToast(drafts: seq<Row>, outcomes: seq<bool>, refreshOk: bool)
    requires !AllSucceeded(outcomes)
    ensures SaveLog(drafts, outcomes, refreshOk)[|drafts|..] == [ErrorToast]
  {
  }

  /** Three drafts, all saved: one success toast, one refresh, no error toast. */
  lemma ScenarioThreeSucceed(d0: Row, d1: Row, d2: Row)
    ensures var log := SaveLog([d0, d1, d2], [true, true, true], true);
      Count(log, SuccessToast) == 1 && Count(log, Refresh) == 1 && Count(log, ErrorToast) == 0
  {
    SaveSuccessToastIff([d0, d1, d2], [true, true, true], true);
    SaveRefreshesOnceIff([d0, d1, d2], [true, true, true], true);
    SaveErrorToastIff([d0, d1, d2], [true, true, true], true);
  }

  /** Three drafts, the second update fails: one error toast, no refresh, no success toast. */
  lemma ScenarioOneOfThreeFails(d0: Row, d1: Row, d2: Row, refreshOk: bool)
    ensures var log := SaveLog([d0, d1, d2], [true, false, true], refreshOk);
      Count(log, ErrorToast) == 1 && Count(log, Refresh) == 0 && Count(log, SuccessToast) == 0
  {
    assert ![true, false, true][1];
    SaveSuccessToastIff([d0, d1, d2], [true, false, true], refreshOk);
    SaveRefreshesOnceIff([d0, d1, d2], [true, false, true], refreshOk);
    SaveErrorToastIff([d0, d1, d2], [true, false, true], refreshOk);
  }
}
