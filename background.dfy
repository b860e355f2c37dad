/** The background coordinator (`background.js`): context-menu registration
    and clicks, the internal `onMessage` listener, the external
    `onMessageExternal` listener, and the two module-level variables they
    share. Every call into the browser is recorded as an effect value. */
module Background {
  import opened Sequences
  import opened Messages

  /** The module state: `labelFormWindowId` and `originTabId`, both `null`
      at start. */
  datatype State = State(labelFormWindowId: Option<int>, originTabId: Option<int>)

  const INITIAL := State(None, None)

  const FORM_PAGE := "labelForm.html"
  const POPUP_WIDTH := 400
  const POPUP_HEIGHT := 500

  /** A call into the browser. `port` stands for the `sendResponse`
      function of one incoming request; a tab or window id is optional
      because the source may pass `null`. */
  datatype Effect =
    | CreateMenuItem(id: string, title: string, contexts: seq<string>)   // chrome.contextMenus.create
    | SendToTab(tabId: Option<int>, msg: Msg, relayTo: Option<nat>)      // chrome.tabs.sendMessage
    | CreatePopup(page: string, kind: string, width: int, height: int, replyTo: nat) // chrome.windows.create
    | Reply(port: nat, response: Option<Response>)                       // sendResponse
    | RemoveWindow(windowId: Option<int>)                                 // chrome.windows.remove

  /** One event the coordinator reacts to. The two callbacks the source
      registers (window created, tab answered) are events of their own. */
  datatype Event =
    | Installed
    | MenuClicked(menuItemId: string, tab: Option<int>)
    | Internal(request: Msg, senderTab: Option<int>, port: nat)
    | PopupCreated(port: nat, windowId: int)
    | TabResponded(port: nat, response: Option<Response>)
    | External(message: ExternalMsg, senderTab: Option<int>)

  datatype Outcome = Outcome(next: State, effects: seq<Effect>)

  /** `createContextMenuItems`, run on install. */
  function InstallEffects(): (effs: seq<Effect>)
    ensures |effs| == 2
    ensures forall e :: e in effs ==> e.CreateMenuItem? && e.contexts == ["all"]
    ensures [effs[0].id, effs[1].id] == [LABEL_ELEMENT, SHOW_LABELS]
  {
    [CreateMenuItem(LABEL_ELEMENT, "Label Element", ["all"]),
     CreateMenuItem(SHOW_LABELS, "Show All Labels", ["all"])]
  }

  /** `handleContextMenuClick`: the two known menu ids send `{action: id}`
      to the clicked tab and nothing else; any other id does nothing. A
      click without a tab fails on `tab.id` before anything is sent. */
  function MenuClickEffects(menuItemId: string, tab: Option<int>): (effs: seq<Effect>)
    ensures effs != [] <==> (menuItemId == LABEL_ELEMENT || menuItemId == SHOW_LABELS) && tab.Some?
    ensures effs != [] ==> effs == [SendToTab(tab, ActionMsg(menuItemId), None)]
  {
    if menuItemId == LABEL_ELEMENT && tab.Some? then [SendToTab(tab, ActionMsg(LABEL_ELEMENT), None)]
    else if menuItemId == SHOW_LABELS && tab.Some? then [SendToTab(tab, ActionMsg(SHOW_LABELS), None)]
    else []
  }

  /** Every registered menu item is one the click handler acts on. */
  lemma MenuItemsAreHandled(tab: int)
    ensures forall e :: e in InstallEffects() ==>
      MenuClickEffects(e.id, Some(tab)) == [SendToTab(Some(tab), ActionMsg(e.id), None)]
  {
  }

  function OpenPopup(port: nat): Effect
  {
    CreatePopup(FORM_PAGE, "popup", POPUP_WIDTH, POPUP_HEIGHT, port)
  }

  /** The `onMessage` listener. `openLabelForm` remembers the sender's tab
      (replacing any earlier one) and opens the popup; `submitLabel` forwards
      the request, unchanged, to the remembered tab and relays its answer;
      anything else is ignored. */
  function HandleMessage(s: State, request: Msg, senderTab: Option<int>, port: nat): (o: Outcome)
    ensures o.next.labelFormWindowId == s.labelFormWindowId
    ensures request.action == OPEN_LABEL_FORM && senderTab.Some? ==>
              o.next.originTabId == senderTab && o.effects == [OpenPopup(port)]
    ensures request.action == OPEN_LABEL_FORM && senderTab.None? ==> o == Outcome(s, [])
    ensures request.action == SUBMIT_LABEL ==>
              o.next == s && o.effects == [SendToTab(s.originTabId, request, Some(port))]
    ensures request.action != OPEN_LABEL_FORM && request.action != SUBMIT_LABEL ==> o == Outcome(s, [])
  {
    if request.action == OPEN_LABEL_FORM then
      if senderTab.Some? then Outcome(s.(originTabId := senderTab), [OpenPopup(port)])
      else Outcome(s, [])   // `sender.tab.id` fails before the assignment
    else if request.action == SUBMIT_LABEL then
      Outcome(s, [SendToTab(s.originTabId, request, Some(port))])
    else
      Outcome(s, [])
  }

  /** The `chrome.windows.create` callback: answer the opener with success
      and the new window's id. */
  function PopupCreatedEffects(port: nat, windowId: int): seq<Effect>
  {
    [Reply(port, Some(Response(true, Some(windowId))))]
  }

  /** The `chrome.tabs.sendMessage` callback: relay the tab's answer as is. */
  function TabResponseEffects(port: nat, response: Option<Response>): seq<Effect>
  {
    [Reply(port, response)]
  }

  /** The `onMessageExternal` listener: only `FROM_PAGE` messages count;
      `submitLabel` sends the label to the sender's own tab and removes the
      form window, `cancelLabel` only removes the form window. */
  function HandleExternal(s: State, m: ExternalMsg, senderTab: Option<int>): (effs: seq<Effect>)
    ensures m.kind != FROM_PAGE ==> effs == []
    ensures m.kind == FROM_PAGE && m.action == SUBMIT_LABEL && senderTab.Some? ==>
              effs == [SendToTab(senderTab, FlatMsg(SUBMIT_LABEL, m.faLabel, m.subAreas), None),
                       RemoveWindow(s.labelFormWindowId)]
    ensures m.kind == FROM_PAGE && m.action == SUBMIT_LABEL && senderTab.None? ==> effs == []
    ensures m.kind == FROM_PAGE && m.action == CANCEL_LABEL ==> effs == [RemoveWindow(s.labelFormWindowId)]
    ensures effs != [] ==> m.kind == FROM_PAGE && (m.action == SUBMIT_LABEL || m.action == CANCEL_LABEL)
  {
    if m.kind == FROM_PAGE then
      if m.action == SUBMIT_LABEL then
        if senderTab.Some? then
          [SendToTab(senderTab, FlatMsg(SUBMIT_LABEL, m.faLabel, m.subAreas), None),
           RemoveWindow(s.labelFormWindowId)]
        else []   // `sender.tab.id` fails before anything is sent
      else if m.action == CANCEL_LABEL then [RemoveWindow(s.labelFormWindowId)]
      else []
    else []
  }

  /** An external submission goes to the sender's tab whatever tab opened
      the form: `originTabId` plays no part in it. */
  lemma ExternalIgnoresOrigin(s: State, origin: Option<int>, m: ExternalMsg, senderTab: Option<int>)
    ensures HandleExternal(s, m, senderTab) == HandleExternal(s.(originTabId := origin), m, senderTab)
    ensures forall e :: e in HandleExternal(s, m, senderTab) && e.SendToTab? ==> e.tabId == senderTab
  {
  }

  /** A successful `openLabelForm`: the only event that changes the state. */
  predicate IsOpenRequest(e: Event)
  {
    e.Internal? && e.request.action == OPEN_LABEL_FORM && e.senderTab.Some?
  }

  /** One event, dispatched to its listener. */
  function Step(s: State, e: Event): (o: Outcome)
    ensures o.next == if IsOpenRequest(e) then s.(originTabId := e.senderTab) else s
  {
    match e
    case Installed => Outcome(s, InstallEffects())
    case MenuClicked(id, tab) => Outcome(s, MenuClickEffects(id, tab))
    case Internal(request, senderTab, port) => HandleMessage(s, request, senderTab, port)
    case PopupCreated(port, windowId) => Outcome(s, PopupCreatedEffects(port, windowId))
    case TabResponded(port, response) => Outcome(s, TabResponseEffects(port, response))
    case External(m, senderTab) => Outcome(s, HandleExternal(s, m, senderTab))
  }

  /** A sequence of events, one after the other, with all their effects. */
  function Run(s: State, events: seq<Event>): Outcome
    decreases |events|
  {
    if events == [] then Outcome(s, [])
    else
      var first := Step(s, events[0]);
      var rest := Run(first.next, events[1..]);
      Outcome(rest.next, first.effects + rest.effects)
  }

  lemma {:induction false} RunAppend(s: State, events: seq<Event>, e: Event)
    ensures Run(s, events + [e]).next == Step(Run(s, events).next, e).next
    ensures Run(s, events + [e]).effects == Run(s, events).effects + Step(Run(s, events).next, e).effects
    decreases |events|
  {
    if events == [] {
      NilAppend([e]);
    } else {
      HeadAppend(events, [e]);
      RunAppend(Step(s, events[0]).next, events[1..], e);
      var first := Step(s, events[0]);
      var rest := Run(first.next, events[1..]);
      Assoc(first.effects, rest.effects, Step(rest.next, e).effects);
    }
  }

  /** `labelFormWindowId` is never written: whatever happens, it keeps its
      initial value, so from the start it stays `null`. */
  lemma {:induction false} WindowIdNeverAssigned(s: State, events: seq<Event>)
    ensures Run(s, events).next.labelFormWindowId == s.labelFormWindowId
    decreases |events|
  {
    if events != [] {
      WindowIdNeverAssigned(Step(s, events[0]).next, events[1..]);
    }
  }

  /** Every window removal from the initial state is asked for `null`: the
      id returned when the popup is created is never stored. */
  lemma RemovalsTargetNull(events: seq<Event>)
    ensures forall e :: e in Run(INITIAL, events).effects && e.RemoveWindow? ==> e.windowId.None?
  {
    RemovalsTargetWindowId(INITIAL, events);
  }

  lemma {:induction false} RemovalsTargetWindowId(s: State, events: seq<Event>)
    ensures forall e :: e in Run(s, events).effects && e.RemoveWindow? ==> e.windowId == s.labelFormWindowId
    decreases |events|
  {
    if events != [] {
      var first := Step(s, events[0]);
      RemovalsTargetWindowId(first.next, events[1..]);
      assert first.next.labelFormWindowId == s.labelFormWindowId;
      if events[0].Internal? {
        var r := events[0].request;
        assert r.action == OPEN_LABEL_FORM || r.action == SUBMIT_LABEL || first.effects == [];
      }
    }
  }

  /** The tab of the most recent successful `openLabelForm` among `events`,
      or `init` when there is none (read from the back). */
  function LastOpener(init: Option<int>, events: seq<Event>): Option<int>
  {
    if events == [] then init
    else if IsOpenRequest(events[|events| - 1]) then events[|events| - 1].senderTab
    else LastOpener(init, events[..|events| - 1])
  }

  /** Last writer wins: after any events, `originTabId` is the tab of the
      latest `openLabelForm`; earlier requesters are forgotten. */
  lemma {:induction false} OriginIsLastOpener(s: State, events: seq<Event>)
    ensures Run(s, events).next.originTabId == LastOpener(s.originTabId, events)
    decreases |events|
  {
    if events != [] {
      var init := events[..|events| - 1];
      var e := events[|events| - 1];
      assert init + [e] == events;
      RunAppend(s, init, e);
      OriginIsLastOpener(s, init);
    }
  }

  /** A `submitLabel` request is forwarded to the latest requester. */
  lemma SubmissionGoesToLastOpener(s: State, events: seq<Event>, request: Msg, senderTab: Option<int>, port: nat)
    requires request.action == SUBMIT_LABEL
    ensures Step(Run(s, events).next, Internal(request, senderTab, port)).effects
            == [SendToTab(LastOpener(s.originTabId, events), request, Some(port))]
  {
    OriginIsLastOpener(s, events);
  }

  /** Two forms opened from different tabs before either is submitted: the
      submission reaches the second tab only. */
  lemma SecondOpenerWins(s: State, tabA: int, tabB: int, open: Msg, p1: nat, p2: nat,
                         request: Msg, sender: Option<int>, p3: nat)
    requires open.action == OPEN_LABEL_FORM && request.action == SUBMIT_LABEL
    ensures var events := [Internal(open, Some(tabA), p1), Internal(open, Some(tabB), p2)];
            Step(Run(s, events).next, Internal(request, sender, p3)).effects
            == [SendToTab(Some(tabB), request, Some(p3))]
  {
    var events := [Internal(open, Some(tabA), p1), Internal(open, Some(tabB), p2)];
    SubmissionGoesToLastOpener(s, events, request, sender, p3);
  }

  /** `openLabelForm` followed by its window-created callback: exactly one
      popup, then `{success: true, windowId}` to the same requester. The
      window id goes into the reply only; it is not stored. */
  lemma OpenAnswersWithWindowId(s: State, open: Msg, tab: int, port: nat, windowId: int)
    requires open.action == OPEN_LABEL_FORM
    ensures var o := Run(s, [Internal(open, Some(tab), port), PopupCreated(port, windowId)]);
            && o.effects == [OpenPopup(port), Reply(port, Some(Response(true, Some(windowId))))]
            && o.next == s.(originTabId := Some(tab))
  {
    var events := [Internal(open, Some(tab), port), PopupCreated(port, windowId)];
    var s1 := s.(originTabId := Some(tab));
    assert Step(s, events[0]) == Outcome(s1, [OpenPopup(port)]);
    assert events[1..] == [PopupCreated(port, windowId)];
    assert events[1..][1..] == [];
    assert Run(s1, events[1..]) == Outcome(s1, [Reply(port, Some(Response(true, Some(windowId))))]);
  }

  /** `submitLabel` followed by the tab's answer: the request goes unchanged
      to `originTabId`, the same answer goes back to the requester, and the
      state is left as it was. */
  lemma SubmitRelaysAnswer(s: State, request: Msg, senderTab: Option<int>, port: nat, answer: Option<Response>)
    requires request.action == SUBMIT_LABEL
    ensures var o := Run(s, [Internal(request, senderTab, port), TabResponded(port, answer)]);
            && o.effects == [SendToTab(s.originTabId, request, Some(port)), Reply(port, answer)]
            && o.next == s
  {
    var events := [Internal(request, senderTab, port), TabResponded(port, answer)];
    assert Step(s, events[0]) == Outcome(s, [SendToTab(s.originTabId, request, Some(port))]);
    assert events[1..] == [TabResponded(port, answer)];
    assert events[1..][1..] == [];
    assert Run(s, events[1..]) == Outcome(s, [Reply(port, answer)]);
  }

  /** The coordinator as the source has it: two mutable variables and the
      log of browser calls made so far. No method may write
      `labelFormWindowId`. */
  class Coordinator {
    var labelFormWindowId: Option<int>
    var originTabId: Option<int>
    var log: seq<Effect>

    function Current(): State
      reads this
    {
      State(labelFormWindowId, originTabId)
    }

    constructor ()
      ensures Current() == INITIAL && log == []
    {
      labelFormWindowId := None;
      originTabId := None;
      log := [];
    }

    method OnInstalled()
      modifies this`log
      ensures log == old(log) + InstallEffects()
    {
      log := log + InstallEffects();
    }

    method OnContextMenuClicked(menuItemId: string, tab: Option<int>)
      modifies this`log
      ensures log == old(log) + MenuClickEffects(menuItemId, tab)
    {
      if menuItemId == LABEL_ELEMENT {
        if tab.None? { return; }
        log := log + [SendToTab(tab, ActionMsg(LABEL_ELEMENT), None)];
      } else if menuItemId == SHOW_LABELS {
        if tab.None? { return; }
        log := log + [SendToTab(tab, ActionMsg(SHOW_LABELS), None)];
      }
    }

    method OnMessage(request: Msg, senderTab: Option<int>, port: nat)
      modifies this`originTabId, this`log
      ensures Current() == HandleMessage(old(Current()), request, senderTab, port).next
      ensures log == old(log) + HandleMessage(old(Current()), request, senderTab, port).effects
    {
      if request.action == OPEN_LABEL_FORM {
        if senderTab.None? { return; }
        originTabId := senderTab;
        log := log + [OpenPopup(port)];
      } else if request.action == SUBMIT_LABEL {
        log := log + [SendToTab(originTabId, request, Some(port))];
      }
    }

    method OnPopupCreated(port: nat, windowId: int)
      modifies this`log
      ensures log == old(log) + PopupCreatedEffects(port, windowId)
    {
      log := log + PopupCreatedEffects(port, windowId);
    }

    method OnTabResponse(port: nat, response: Option<Response>)
      modifies this`log
      ensures log == old(log) + TabResponseEffects(port, response)
    {
      log := log + TabResponseEffects(port, response);
    }

    method OnMessageExternal(m: ExternalMsg, senderTab: Option<int>)
      modifies this`log
      ensures log == old(log) + HandleExternal(old(Current()), m, senderTab)
    {
      if m.kind == FROM_PAGE {
        if m.action == SUBMIT_LABEL {
          if senderTab.None? { return; }
          log := log + [SendToTab(senderTab, FlatMsg(SUBMIT_LABEL, m.faLabel, m.subAreas), None)];
          log := log + [RemoveWindow(labelFormWindowId)];
        } else if m.action == CANCEL_LABEL {
          log := log + [RemoveWindow(labelFormWindowId)];
        }
      }
    }

    /** Hands one event to its listener; the object then holds the state
        and log that the trace semantics predicts. */
    method Dispatch(e: Event)
      modifies this`originTabId, this`log
      ensures Current() == Step(old(Current()), e).next
      ensures log == old(log) + Step(old(Current()), e).effects
    {
      match e
      case Installed => OnInstalled();
      case MenuClicked(id, tab) => OnContextMenuClicked(id, tab);
      case Internal(request, senderTab, port) => OnMessage(request, senderTab, port);
      case PopupCreated(port, windowId) => OnPopupCreated(port, windowId);
      case TabResponded(port, response) => OnTabResponse(port, response);
      case External(m, senderTab) => OnMessageExternal(m, senderTab);
    }
  }
}
