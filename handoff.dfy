/** The single-slot handoff between the background worker and the popup: the
    context-menu handler overwrites one `lastLookup` record (background.js:11-56),
    and the popup reads it back and picks what to show (popup.js:7-54). */
module Handoff {
  import opened Wrappers
  import opened JsValues
  import opened Classifier
  import opened DeviceSearch

  /** The id of the extension's context-menu entry. */
  const MenuItemId := "sevcoLookup"

  /** A `lastLookup` record as the popup destructures it. Fields the writer did
      not set read as `undefined`; `hostname` is only set by records of the
      legacy format, which carried no `searchTerm`. */
  datatype LookupRecord = LookupRecord(
    searchTerm: Json,
    searchType: Json,
    hostname: Json,
    devices: Json,
    error: Json,
    timestamp: int)

  /** The `lastLookup` storage slot. */
  class LookupSlot {
    var lastLookup: Option<LookupRecord>

    constructor()
      ensures lastLookup == None
    {
      lastLookup := None;
    }

    /** `chrome.storage.local.set({lastLookup: rec})`: the previous record is gone. */
    method Publish(rec: LookupRecord)
      modifies this
      ensures lastLookup == Some(rec)
    {
      lastLookup := Some(rec);
    }
  }

  /** The record a finished lookup writes: the devices on success, the error's
      message otherwise, always with the term, its type and the time. */
  function PublishedRecord(q: SearchQuery, outcome: Result<seq<Record>, LookupError>, now: int): (rec: LookupRecord)
    ensures rec.searchTerm == JStr(q.term) && rec.searchType == JStr(KindName(q.kind))
    ensures rec.hostname == JUndefined && rec.timestamp == now
    ensures outcome.Success? <==> rec.devices.JArr?
    ensures outcome.Failure? <==> rec.error.JStr?
    ensures outcome.Success? ==> rec.error == JUndefined && |rec.devices.items| == |outcome.value|
    ensures outcome.Success? ==>
      forall i :: 0 <= i < |outcome.value| ==> rec.devices.items[i] == JObj(outcome.value[i])
    ensures outcome.Failure? ==> rec.devices == JUndefined && rec.error == JStr(ErrorMessage(outcome.error))
  {
    var term, kind := JStr(q.term), JStr(KindName(q.kind));
    match outcome
    case Success(devices) =>
      LookupRecord(term, kind, JUndefined,
        JArr(seq(|devices|, i requires 0 <= i < |devices| => JObj(devices[i]))), JUndefined, now)
    case Failure(e) =>
      LookupRecord(term, kind, JUndefined, JUndefined, JStr(ErrorMessage(e)), now)
  }

  /** The context-menu handler. Another menu entry, or a selection that fails
      validation, leaves the slot as it was; otherwise the lookup runs (its
      network outcomes are parameters, `now` is the clock) and its result
      replaces the slot's record. */
  method OnContextMenuClick(slot: LookupSlot, menuItemId: string, selectionText: string,
                            creds: Credentials, http: HttpOutcome, facet: FacetOutcome, now: int)
    modifies slot
    ensures menuItemId != MenuItemId ==> slot.lastLookup == old(slot.lastLookup)
    ensures menuItemId == MenuItemId && Classify(selectionText).Failure? ==>
      slot.lastLookup == old(slot.lastLookup)
    ensures menuItemId == MenuItemId && Classify(selectionText).Success? ==>
      var q := Classify(selectionText).value;
      slot.lastLookup == Some(PublishedRecord(q, LookupDevice(q, creds, http, facet), now))
  {
    if menuItemId == MenuItemId {
      var classified := Classify(selectionText);
      if classified.Success? {
        var q := classified.value;
        var outcome := LookupDevice(q, creds, http, facet);
        slot.Publish(PublishedRecord(q, outcome, now));
      }
    }
  }

  // ---------------------------------------------------------------- popup

  /** What the popup renders. `UnexpectedError` is the catch-all panel shown
      when reading the single device throws. */
  datatype View =
    | NoDataPanel
    | ErrorPanel(term: Json, error: Json)
    | DeviceListView(term: Json, kind: Json, devices: seq<Json>)
    | SingleDeviceView(title: Json, device: Json)
    | UnexpectedError(message: string)
    | NothingRendered

  /** `searchTerm || hostname`: records of the legacy format name the term `hostname`. */
  function TermOf(rec: LookupRecord): Json {
    if Truthy(rec.searchTerm) then rec.searchTerm else rec.hostname
  }

  /** `searchType || 'hostname'`. */
  function KindOf(rec: LookupRecord): Json {
    if Truthy(rec.searchType) then rec.searchType else JStr("hostname")
  }

  /** The popup's choice: no record gives the "no data" panel; a truthy `error`
      wins over any devices; more than one device gives the list, exactly one
      the single-device view titled by its hostname or else the term, and no
      device renders nothing. */
  function ChooseView(slot: Option<LookupRecord>): (v: View)
    ensures v == NoDataPanel <==> slot.None?
    ensures v.ErrorPanel? <==> slot.Some? && Truthy(slot.value.error)
    ensures v.ErrorPanel? ==> v == ErrorPanel(TermOf(slot.value), slot.value.error)
    ensures v.DeviceListView? <==>
      slot.Some? && !Truthy(slot.value.error) && slot.value.devices.JArr? && |slot.value.devices.items| > 1
    ensures v.DeviceListView? ==>
      v == DeviceListView(TermOf(slot.value), KindOf(slot.value), slot.value.devices.items)
    ensures v.SingleDeviceView? || v.UnexpectedError? <==>
      slot.Some? && !Truthy(slot.value.error) && slot.value.devices.JArr? && |slot.value.devices.items| == 1
    ensures v.SingleDeviceView? ==>
      var d := slot.value.devices.items[0];
      !Nullish(d) && v.device == d
      && v.title == (if Truthy(Get(d, "hostname")) then Get(d, "hostname") else TermOf(slot.value))
    ensures v.UnexpectedError? ==> Nullish(slot.value.devices.items[0])
    ensures v == NothingRendered <==>
      slot.Some? && !Truthy(slot.value.error) && !(slot.value.devices.JArr? && |slot.value.devices.items| >= 1)
  {
    match slot
    case None => NoDataPanel
    case Some(rec) =>
      if Truthy(rec.error) then ErrorPanel(TermOf(rec), rec.error)
      else if rec.devices.JArr? && |rec.devices.items| > 1 then
        DeviceListView(TermOf(rec), KindOf(rec), rec.devices.items)
      else if rec.devices.JArr? && |rec.devices.items| == 1 then
        var d := rec.devices.items[0];
        if Nullish(d) then UnexpectedError(ReadError(d, "hostname"))
        else
          var title := Get(d, "hostname");
          SingleDeviceView(if Truthy(title) then title else TermOf(rec), d)
      else NothingRendered
  }

  /** `ChooseView` applied to the record a finished lookup writes: its error
      with the term, or its devices; of the views `ChooseView` distinguishes,
      never the "no data" panel, the catch-all error or an empty page. Errors
      thrown while rendering a single device (beyond reading its `hostname`)
      are not part of `ChooseView`. */
  lemma {:induction false} PublishedView(q: SearchQuery, creds: Credentials, http: HttpOutcome,
                                         facet: FacetOutcome, now: int)
    requires q.term != []
    ensures var outcome := LookupDevice(q, creds, http, facet);
      var v := ChooseView(Some(PublishedRecord(q, outcome, now)));
      (outcome.Failure? ==> v == ErrorPanel(JStr(q.term), JStr(ErrorMessage(outcome.error))))
      && (outcome.Success? && |outcome.value| > 1 ==>
            v.DeviceListView? && v.term == JStr(q.term) && v.kind == JStr(KindName(q.kind))
            && |v.devices| == |outcome.value|)
      && (outcome.Success? && |outcome.value| == 1 ==> v.SingleDeviceView? && v.device == JObj(outcome.value[0]))
      && !(v.NoDataPanel? || v.UnexpectedError? || v.NothingRendered?)
  {
    var outcome := LookupDevice(q, creds, http, facet);
    var rec := PublishedRecord(q, outcome, now);
    assert Truthy(JStr(q.term)) && Truthy(JStr(KindName(q.kind)));
    if outcome.Success? {
      assert |outcome.value| >= 1;
      assert rec.devices.items[0] == JObj(outcome.value[0]);
    }
  }
}
