/** The popup form (`labelForm.js`): validating the label, turning the
    sub-area text into a list, and deciding what to do with the response. */
module LabelForm {
  import opened Sequences
  import opened Messages
  import opened JsString

  const NO_LABEL_ALERT := "Please enter a Functional Area label."
  const SUBMIT_ERROR_PREFIX := "Error submitting label: "
  const RETRY_ALERT := "Error submitting label. Please try again."

  /** `.map(item => item.trim())` */
  function TrimAll(pieces: seq<string>): (r: seq<string>)
    ensures |r| == |pieces|
    ensures forall i :: 0 <= i < |r| ==> r[i] == Trim(pieces[i])
  {
    if pieces == [] then []
    else
      var rest := TrimAll(pieces[1..]);
      ConsShift(Trim(pieces[0]), rest);
      TailShift(pieces);
      [Trim(pieces[0])] + rest
  }

  /** `.filter(Boolean)`: keeps the non-empty strings, in order. */
  function DropEmpty(pieces: seq<string>): (r: seq<string>)
    ensures |r| <= |pieces|
    ensures forall i :: 0 <= i < |r| ==> r[i] != []
  {
    if pieces == [] then []
    else (if pieces[0] == [] then [] else [pieces[0]]) + DropEmpty(pieces[1..])
  }

  /** The filter keeps every non-empty string, as often as it occurs, and
      drops only the empty ones. */
  lemma {:induction false} DropEmptyKeepsNonEmpty(pieces: seq<string>)
    ensures multiset(DropEmpty(pieces)) == multiset(pieces)[[] := 0]
  {
    if pieces != [] {
      var x, rest := pieces[0], pieces[1..];
      assert pieces == [x] + rest;
      DropEmptyCons(x, rest);
      DropEmptyKeepsNonEmpty(rest);
      DropEmptyCountStep(x, rest, DropEmpty(rest));
    }
  }

  lemma DropEmptyCountStep(x: string, rest: seq<string>, d: seq<string>)
    requires multiset(d) == multiset(rest)[[] := 0]
    ensures multiset((if x == [] then [] else [x]) + d) == multiset([x] + rest)[[] := 0]
  {
    assert multiset([x] + rest) == multiset{x} + multiset(rest);
  }

  /** The filter on one element: kept exactly when it is non-empty. With
      DropEmptyAppend this fixes the order of what is kept. */
  lemma DropEmptyOne(x: string)
    ensures DropEmpty([x]) == if x == [] then [] else [x]
  {
    assert [x][1..] == [];
  }

  lemma {:induction false} TrimAllAppend(p: seq<string>, q: seq<string>)
    ensures TrimAll(p + q) == TrimAll(p) + TrimAll(q)
  {
    if p != [] {
      HeadAppend(p, q);
      TrimAllAppend(p[1..], q);
    } else {
      NilAppend(q);
    }
  }

  lemma {:induction false} DropEmptyAppend(p: seq<string>, q: seq<string>)
    ensures DropEmpty(p + q) == DropEmpty(p) + DropEmpty(q)
  {
    if p != [] {
      HeadAppend(p, q);
      DropEmptyAppend(p[1..], q);
      Assoc(if p[0] == [] then [] else [p[0]], DropEmpty(p[1..]), DropEmpty(q));
    } else {
      NilAppend(q);
    }
  }

  /** A trimmed piece keeps only characters of the piece. */
  lemma TrimKeepsNoSeparator(s: string)
    requires NoSeparator(s)
    ensures NoSeparator(Trim(s))
  {
    TrimStartKeepsNoSeparator(s);
    TrimEndKeepsNoSeparator(TrimStart(s));
  }

  lemma {:induction false} TrimStartKeepsNoSeparator(s: string)
    requires NoSeparator(s)
    ensures NoSeparator(TrimStart(s))
  {
    if s != [] && IsWhitespace(s[0]) {
      SliceKeepsNoSeparator(s, 1, |s|);
      TrimStartKeepsNoSeparator(s[1..]);
    }
  }

  lemma {:induction false} TrimEndKeepsNoSeparator(s: string)
    requires NoSeparator(s)
    ensures NoSeparator(TrimEnd(s))
  {
    if s != [] && IsWhitespace(s[|s| - 1]) {
      SliceKeepsNoSeparator(s, 0, |s| - 1);
      assert s[0..|s| - 1] == s[..|s| - 1];
      TrimEndKeepsNoSeparator(s[..|s| - 1]);
    }
  }

  lemma SliceKeepsNoSeparator(s: string, i: nat, j: nat)
    requires i <= j <= |s| && NoSeparator(s)
    ensures NoSeparator(s[i..j])
  {
    assert forall k :: 0 <= k < j - i ==> s[i..j][k] == s[i + k];
  }

  /** What every element of the parsed list satisfies. */
  predicate IsSubArea(x: string)
  {
    x != [] && IsTrimmed(x) && NoSeparator(x)
  }

  lemma {:induction false} CleanPieces(pieces: seq<string>)
    requires forall i :: 0 <= i < |pieces| ==> NoSeparator(pieces[i])
    ensures forall i :: 0 <= i < |DropEmpty(TrimAll(pieces))| ==> IsSubArea(DropEmpty(TrimAll(pieces))[i])
  {
    if pieces != [] {
      var x := Trim(pieces[0]);
      var rest := TrimAll(pieces[1..]);
      CleanPieces(pieces[1..]);
      TrimKeepsNoSeparator(pieces[0]);
      assert TrimAll(pieces) == [x] + rest;
      DropEmptyCons(x, rest);
      SubAreasAppend(if x == [] then [] else [x], DropEmpty(rest));
    }
  }

  lemma DropEmptyCons(x: string, rest: seq<string>)
    ensures DropEmpty([x] + rest) == (if x == [] then [] else [x]) + DropEmpty(rest)
  {
    assert ([x] + rest)[1..] == rest;
  }

  lemma SubAreasAppend(p: seq<string>, q: seq<string>)
    requires forall i :: 0 <= i < |p| ==> IsSubArea(p[i])
    requires forall i :: 0 <= i < |q| ==> IsSubArea(q[i])
    ensures forall i :: 0 <= i < |p + q| ==> IsSubArea((p + q)[i])
  {
    forall i | 0 <= i < |p + q| ensures IsSubArea((p + q)[i]) {
      if i < |p| { assert (p + q)[i] == p[i]; } else { assert (p + q)[i] == q[i - |p|]; }
    }
  }

  /** `subFAList.split(/[,\n]/).map(item => item.trim()).filter(Boolean)`.
      Every sub-area is non-empty, has no surrounding whitespace and holds
      no separator. */
  function ParseSubAreas(s: string): (r: seq<string>)
    ensures |r| <= |Separators(s)| + 1
    ensures forall i :: 0 <= i < |r| ==> IsSubArea(r[i])
  {
    CleanPieces(Split(s));
    DropEmpty(TrimAll(Split(s)))
  }

  /** The sub-areas of text cut at a separator are those of the part before
      followed by those of the part after: order is kept and nothing moves
      across a separator. */
  lemma ParseSubAreasAtSeparator(a: string, c: char, b: string)
    requires IsSeparator(c)
    ensures ParseSubAreas(a + [c] + b) == ParseSubAreas(a) + ParseSubAreas(b)
  {
    SplitAtSeparator(a, c, b);
    TrimAllAppend(Split(a), Split(b));
    DropEmptyAppend(TrimAll(Split(a)), TrimAll(Split(b)));
  }

  /** Text without separators gives its trim as the single sub-area, or
      nothing when it is all whitespace. Together with
      ParseSubAreasAtSeparator this determines ParseSubAreas on every input. */
  lemma ParseSubAreasOnePiece(s: string)
    requires NoSeparator(s)
    ensures ParseSubAreas(s) == if AllWhitespace(s) then [] else [Trim(s)]
  {
    SplitNoSeparator(s);
    TrimEmptyIff(s);
    assert TrimAll([s]) == [Trim(s)];
  }

  /** The pieces between separators, trimmed, with the empty ones dropped,
      in order. */
  lemma ParseSubAreasOfJoin(pieces: seq<string>, seps: string)
    requires |pieces| == |seps| + 1
    requires forall k :: 0 <= k < |seps| ==> IsSeparator(seps[k])
    requires forall i :: 0 <= i < |pieces| ==> NoSeparator(pieces[i])
    ensures ParseSubAreas(Join(pieces, seps)) == DropEmpty(TrimAll(pieces))
  {
    SplitOfJoin(pieces, seps);
  }

  lemma {:induction false} CleanPiecesUnchanged(items: seq<string>)
    requires forall i :: 0 <= i < |items| ==> IsSubArea(items[i])
    ensures DropEmpty(TrimAll(items)) == items
  {
    if items != [] {
      CleanPiecesUnchanged(items[1..]);
      TrimOfTrimmed(items[0]);
      var t := TrimAll(items);
      assert t[1..] == TrimAll(items[1..]);
      assert DropEmpty(t) == [t[0]] + DropEmpty(t[1..]);
      ConsTail(items);
    }
  }

  /** Round trip: sub-areas written out with any separators between them are
      parsed back to exactly the same list. */
  lemma ParseSubAreasRoundTrip(items: seq<string>, seps: string)
    requires |items| == |seps| + 1
    requires forall k :: 0 <= k < |seps| ==> IsSeparator(seps[k])
    requires forall i :: 0 <= i < |items| ==> IsSubArea(items[i])
    ensures ParseSubAreas(Join(items, seps)) == items
  {
    ParseSubAreasOfJoin(items, seps);
    CleanPiecesUnchanged(items);
  }

  /** Text made only of separators and whitespace gives no sub-areas. */
  lemma ParseSubAreasOfBlank(s: string)
    requires forall k :: 0 <= k < |s| ==> IsSeparator(s[k]) || IsWhitespace(s[k])
    ensures ParseSubAreas(s) == []
    decreases |s|
  {
    if NoSeparator(s) {
      assert AllWhitespace(s);
      ParseSubAreasOnePiece(s);
    } else {
      var k :| 0 <= k < |s| && IsSeparator(s[k]);
      BlankSlice(s, 0, k);
      BlankSlice(s, k + 1, |s|);
      ParseSubAreasOfBlank(s[0..k]);
      ParseSubAreasOfBlank(s[k + 1..|s|]);
      ParseSubAreasAround(s, k);
    }
  }

  /** Cutting at one separator: nothing on either side gives nothing in all. */
  lemma ParseSubAreasAround(s: string, k: nat)
    requires k < |s| && IsSeparator(s[k])
    requires ParseSubAreas(s[0..k]) == [] && ParseSubAreas(s[k + 1..|s|]) == []
    ensures ParseSubAreas(s) == []
  {
    SplitAround(s, k);
    ParseSubAreasAtSeparator(s[0..k], s[k], s[k + 1..|s|]);
  }

  lemma BlankSlice(s: string, i: nat, j: nat)
    requires i <= j <= |s|
    requires forall k :: 0 <= k < |s| ==> IsSeparator(s[k]) || IsWhitespace(s[k])
    ensures forall k :: 0 <= k < j - i ==> IsSeparator(s[i..j][k]) || IsWhitespace(s[i..j][k])
  {
    assert forall k :: 0 <= k < j - i ==> s[i..j][k] == s[i + k];
  }

  /** What a click on one of the form's buttons leads to. */
  datatype FormOutcome =
    | Rejected(alert: string)                         // alert, nothing sent, window stays open
    | Send(faLabel: string, subAreas: seq<string>)     // the submitLabel request is sent
    | CloseWithoutSending                             // window.close(), nothing sent

  datatype Click = SubmitClicked(labelText: string, subText: string) | CancelClicked

  /** The submit button: an all-whitespace label is refused with an alert;
      otherwise the trimmed label and the parsed sub-areas are sent. */
  function Submit(labelText: string, subText: string): (o: FormOutcome)
    ensures o.Rejected? <==> AllWhitespace(labelText)
    ensures o.Rejected? ==> o.alert == NO_LABEL_ALERT
    ensures !o.CloseWithoutSending?
    ensures o.Send? ==> o.faLabel == Trim(labelText) && o.faLabel != [] && IsTrimmed(o.faLabel)
    ensures o.Send? ==> o.subAreas == ParseSubAreas(subText)
  {
    TrimEmptyIff(labelText);
    var faLabel := Trim(labelText);
    if faLabel != [] then Send(faLabel, ParseSubAreas(subText)) else Rejected(NO_LABEL_ALERT)
  }

  /** Whitespace around the label never changes what is submitted. */
  lemma SubmitIgnoresSurroundingWhitespace(lead: string, labelText: string, trail: string, subText: string)
    requires AllWhitespace(lead) && AllWhitespace(trail) && IsTrimmed(labelText)
    ensures Submit(lead + labelText + trail, subText) == Submit(labelText, subText)
  {
    TrimIsUnique(lead, labelText, trail);
    TrimOfTrimmed(labelText);
  }

  /** Both buttons: cancel closes the window without sending anything. */
  function HandleClick(c: Click): (o: FormOutcome)
    ensures o.CloseWithoutSending? <==> c.CancelClicked?
    ensures o.Send? ==> c.SubmitClicked?
    ensures c.SubmitClicked? ==> o == Submit(c.labelText, c.subText)
  {
    match c
    case SubmitClicked(labelText, subText) => Submit(labelText, subText)
    case CancelClicked => CloseWithoutSending
  }

  /** The message the form hands to the runtime for an outcome. */
  function SentRequest(o: FormOutcome): (m: Option<Msg>)
    ensures m.Some? <==> o.Send?
    ensures o.Send? ==> m.value.action == SUBMIT_LABEL && m.value.DataMsg?
                        && m.value.data == LabelData(o.faLabel, o.subAreas)
  {
    if o.Send? then Some(SubmitRequest(o.faLabel, o.subAreas)) else None
  }

  /** What the form does once the submit request is answered. */
  datatype Decision = Close | StayOpen(alert: string)

  /** The response callback: close only on a truthy `response.success` with
      no runtime error; every other path alerts and keeps the window open. */
  function OnSubmitResponse(lastError: Option<string>, response: Option<Response>): (d: Decision)
    ensures d.Close? <==> lastError.None? && response.Some? && response.value.success
    ensures lastError.Some? ==> d == StayOpen(SUBMIT_ERROR_PREFIX + lastError.value)
    ensures lastError.None? && !d.Close? ==> d == StayOpen(RETRY_ALERT)
  {
    if lastError.Some? then StayOpen(SUBMIT_ERROR_PREFIX + lastError.value)
    else if response.Some? && response.value.success then Close
    else StayOpen(RETRY_ALERT)
  }
}

/** Sub-area inputs worked through by hand. */
module LabelFormExamples {
  import opened Sequences
  import opened JsString
  import opened LabelForm

  /** A clean sub-area on its own parses to itself. */
  lemma ParseSubAreasOfOne(x: string)
    requires IsSubArea(x)
    ensures ParseSubAreas(x) == [x]
  {
    ParseSubAreasOnePiece(x);
    TrimOfTrimmed(x);
    TrimEmptyIff(x);
  }

  /** Leading padding before a lone sub-area is dropped. */
  lemma ParseSubAreasOfPadded(sp: char, x: string)
    requires IsSubArea(x) && IsWhitespace(sp) && !IsSeparator(sp)
    ensures ParseSubAreas([sp] + x) == [x]
  {
    var s := [sp] + x;
    ConsShift(sp, x);
    assert NoSeparator(s);
    TrimIsUnique([sp], x, []);
    AppendNil(s);
    TrimEmptyIff(s);
    ParseSubAreasOnePiece(s);
  }

  /** A clean leading sub-area followed by a separator heads the list. */
  lemma ParseSubAreasCons(a: string, c: char, rest: string)
    requires IsSubArea(a) && IsSeparator(c)
    ensures ParseSubAreas(a + [c] + rest) == [a] + ParseSubAreas(rest)
  {
    ParseSubAreasAtSeparator(a, c, rest);
    ParseSubAreasOfOne(a);
  }

  /** Text shaped `a, b\nc` (comma, padding, newline) gives `[a, b, c]`. */
  lemma ParseSubAreasCommaNewline(a: string, b: string, c: string, sp: char)
    requires IsSubArea(a) && IsSubArea(b) && IsSubArea(c) && IsWhitespace(sp) && !IsSeparator(sp)
    ensures ParseSubAreas(a + [','] + ([sp] + b + ['\n'] + c)) == [a, b, c]
  {
    var rest := [sp] + b + ['\n'] + c;
    ParseSubAreasAtSeparator([sp] + b, '\n', c);
    ParseSubAreasOfPadded(sp, b);
    ParseSubAreasOfOne(c);
    ParseSubAreasCons(a, ',', rest);
    ConsPair(a, b, c);
  }

  /** `"a, b\nc"` gives `["a", "b", "c"]`. */
  lemma ParseSubAreasExample()
    ensures ParseSubAreas("a, b\nc") == ["a", "b", "c"]
  {
    assert "a, b\nc" == "a" + [','] + ([' '] + "b" + ['\n'] + "c");
    ParseSubAreasCommaNewline("a", "b", "c", ' ');
  }

  /** `"  ,  \n "` gives `[]`. */
  lemma ParseSubAreasOfBlankExample()
    ensures ParseSubAreas("  ,  \n ") == []
  {
    ParseSubAreasOfBlank("  ,  \n ");
  }
}
