/** Message values exchanged between the popup form, the background
    coordinator and the page agents. Payloads are JSON-like objects in the
    extension; here each shape that actually occurs gets its own constructor. */
module Messages {

  /** A JavaScript value that may be `null` or `undefined`. */
  datatype Option<+T> = None | Some(value: T)

  /** The `{faLabel, subAreas}` pair entered in the popup. */
  datatype LabelData = LabelData(faLabel: string, subAreas: seq<string>)

  /** Internal (runtime) messages; every shape carries an `action` string.
      A message whose `action` is missing is represented by an action string
      that matches none of the handled ones. */
  datatype Msg =
    | ActionMsg(action: string)                                          // {action}
    | DataMsg(action: string, data: LabelData)                           // {action, data: {faLabel, subAreas}}
    | FlatMsg(action: string, faLabel: string, subAreas: seq<string>)    // {action, faLabel, subAreas}

  /** A message arriving through the external-messaging channel:
      `{type, action, faLabel, subAreas}`. */
  datatype ExternalMsg = ExternalMsg(kind: string, action: string, faLabel: string, subAreas: seq<string>)

  /** A response object as seen by the receiver: `success` is the truthiness
      of its `success` property, `windowId` the property when present. */
  datatype Response = Response(success: bool, windowId: Option<int>)

  const LABEL_ELEMENT := "labelElement"
  const SHOW_LABELS := "showLabels"
  const OPEN_LABEL_FORM := "openLabelForm"
  const SUBMIT_LABEL := "submitLabel"
  const CANCEL_LABEL := "cancelLabel"
  const FROM_PAGE := "FROM_PAGE"

  /** The request the popup form sends on a successful submit. */
  function SubmitRequest(faLabel: string, subAreas: seq<string>): (m: Msg)
    ensures m.action == SUBMIT_LABEL
    ensures m.DataMsg? && m.data.faLabel == faLabel && m.data.subAreas == subAreas
  {
    DataMsg(SUBMIT_LABEL, LabelData(faLabel, subAreas))
  }
}
