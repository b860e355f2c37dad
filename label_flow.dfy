/** How the popup form and the coordinator fit together: the request the
    form sends on submit is what the coordinator forwards, and the answer it
    relays is what decides whether the form closes. */
module LabelFlow {
  import opened Messages
  import opened JsString
  import opened LabelForm
  import opened Background

  /** A valid submission reaches the coordinator as a `submitLabel` request
      carrying the trimmed label and the parsed sub-areas, and is forwarded
      unchanged to the tab that opened the form; no state changes. */
  lemma SubmissionForwardedToOrigin(s: State, labelText: string, subText: string,
                                    popupTab: Option<int>, port: nat)
    requires !AllWhitespace(labelText)
    ensures SentRequest(Submit(labelText, subText)).Some?
    ensures var m := SentRequest(Submit(labelText, subText)).value;
            && m == SubmitRequest(Trim(labelText), ParseSubAreas(subText))
            && HandleMessage(s, m, popupTab, port) == Outcome(s, [SendToTab(s.originTabId, m, Some(port))])
  {
  }

  /** An all-whitespace label and the cancel button both leave the
      coordinator without any request. */
  lemma NothingSentWithoutLabel(labelText: string, subText: string)
    ensures AllWhitespace(labelText) ==> SentRequest(HandleClick(SubmitClicked(labelText, subText))) == None
    ensures SentRequest(HandleClick(CancelClicked)) == None
  {
  }

  /** The form's own request, forwarded by the coordinator and answered by
      the page: the reply logged for the form's `sendResponse` carries the
      page's answer unchanged, and the form closes on it exactly when that
      answer reports success. */
  lemma FormClosesOnRelayedSuccess(s: State, labelText: string, subText: string,
                                   popupTab: Option<int>, port: nat, answer: Option<Response>)
    requires !AllWhitespace(labelText)
    ensures SentRequest(Submit(labelText, subText)).Some?
    ensures var m := SentRequest(Submit(labelText, subText)).value;
            var o := Run(s, [Internal(m, popupTab, port), TabResponded(port, answer)]);
            && |o.effects| == 2 && o.effects[1].Reply? && o.effects[1].port == port
            && (OnSubmitResponse(None, o.effects[1].response).Close? <==> answer.Some? && answer.value.success)
  {
    var m := SentRequest(Submit(labelText, subText)).value;
    SubmitRelaysAnswer(s, m, popupTab, port, answer);
  }

  /** From start: a page asks for the form, the window opens, the form
      submits. The opener receives `{success: true, windowId}` and the
      submission is forwarded to the page that asked. */
  lemma OpenThenSubmit(tab: int, p1: nat, windowId: int, labelText: string, subText: string,
                       popupTab: Option<int>, p2: nat)
    requires !AllWhitespace(labelText)
    ensures var m := SubmitRequest(Trim(labelText), ParseSubAreas(subText));
            Run(INITIAL, [Internal(ActionMsg(OPEN_LABEL_FORM), Some(tab), p1),
                          PopupCreated(p1, windowId),
                          Internal(m, popupTab, p2)]).effects
            == [OpenPopup(p1), Reply(p1, Some(Response(true, Some(windowId)))),
                SendToTab(Some(tab), m, Some(p2))]
  {
    OpenThenForward(tab, p1, windowId, SubmitRequest(Trim(labelText), ParseSubAreas(subText)), popupTab, p2);
  }

  lemma OpenThenForward(tab: int, p1: nat, windowId: int, m: Msg, popupTab: Option<int>, p2: nat)
    requires m.action == SUBMIT_LABEL
    ensures Run(INITIAL, [Internal(ActionMsg(OPEN_LABEL_FORM), Some(tab), p1),
                          PopupCreated(p1, windowId),
                          Internal(m, popupTab, p2)]).effects
            == [OpenPopup(p1), Reply(p1, Some(Response(true, Some(windowId)))),
                SendToTab(Some(tab), m, Some(p2))]
  {
    var events := [Internal(ActionMsg(OPEN_LABEL_FORM), Some(tab), p1),
                   PopupCreated(p1, windowId),
                   Internal(m, popupTab, p2)];
    var s1 := INITIAL.(originTabId := Some(tab));
    var last := Run(s1, [events[2]]);
    assert Step(s1, events[2]) == Outcome(s1, [SendToTab(Some(tab), m, Some(p2))]);
    assert [events[2]][0] == events[2] && [events[2]][1..] == [];
    assert Run(s1, []) == Outcome(s1, []);
    assert last.effects == [SendToTab(Some(tab), m, Some(p2))];
    assert Step(s1, events[1]) == Outcome(s1, [Reply(p1, Some(Response(true, Some(windowId))))]);
    assert events[1..] == [events[1], events[2]];
    assert events[1..][1..] == [events[2]];
    assert Run(s1, events[1..]).effects
           == [Reply(p1, Some(Response(true, Some(windowId))))] + last.effects;
    assert Step(INITIAL, events[0]) == Outcome(s1, [OpenPopup(p1)]);
  }
}
