/**
 * The market edit screen: the form a market is loaded into, the handlers that
 * add, delete and change its phone rows, and the checks the save runs before
 * it sends the update.
 */
module MarketEdit {
  import opened Common
  import opened MarketRules
  import opened Tables

  /** A phone row being edited; a row added on this screen has no id yet. */
  datatype EditablePhone = EditablePhone(id: Option<nat>, labelText: string, number: string, isPrimary: bool, isNew: bool)

  datatype EditForm = EditForm(
    name: string,
    stationCallLetters: string,
    airTime: string,
    timezone: string,
    list: FeedList,
    phones: seq<EditablePhone>)

  /** A stored phone as a row of the form. */
  function LoadPhone(p: Phone): (r: EditablePhone)
    ensures r.id == Some(p.id) && !r.isNew
  {
    EditablePhone(Some(p.id), p.labelText, p.number, p.isPrimary, false)
  }

  /** The form starts from the market: a missing call sign is blank and a blank zone is EST. */
  function LoadForm(m: Market, phones: seq<Phone>): (r: EditForm)
    ensures r.name == m.name && r.airTime == m.airTime && r.list == m.list
    ensures r.stationCallLetters == (if m.stationCallLetters.Some? then m.stationCallLetters.value else "")
    ensures r.timezone == (if m.timezone == "" then "EST" else m.timezone)
    ensures |r.phones| == |phones|
    ensures forall i :: 0 <= i < |phones| ==> r.phones[i] == LoadPhone(phones[i])
  {
    EditForm(m.name, OrElse(m.stationCallLetters, ""), m.airTime, OrElse(Some(m.timezone), "EST"), m.list,
      seq(|phones|, i requires 0 <= i < |phones| => LoadPhone(phones[i])))
  }

  // ----- The phone handlers -----

  /** handleAddPhone: a blank new row at the end. */
  function AddPhone(phones: seq<EditablePhone>): (r: seq<EditablePhone>)
    ensures |r| == |phones| + 1 && r[..|phones|] == phones
    ensures r[|phones|] == EditablePhone(None, "", "", false, true)
  {
    phones + [EditablePhone(None, "", "", false, true)]
  }

  /** The outcome of handleDeletePhone. */
  datatype Deletion = Deleted(phones: seq<EditablePhone>) | LastPhoneKept

  /**
   * handleDeletePhone: the last remaining row cannot go; otherwise the row at
   * `index` goes and the others keep their order (an index past the end
   * removes nothing).
   */
  function DeletePhone(phones: seq<EditablePhone>, index: nat): (r: Deletion)
    ensures r.LastPhoneKept? <==> |phones| <= 1
    ensures r.Deleted? && index < |phones| ==>
      |r.phones| == |phones| - 1 &&
      (forall k :: 0 <= k < index ==> r.phones[k] == phones[k]) &&
      (forall k :: index <= k < |r.phones| ==> r.phones[k] == phones[k + 1])
    ensures r.Deleted? && index >= |phones| ==> r.phones == phones
    ensures r.Deleted? ==> |r.phones| >= 1
  {
    if |phones| <= 1 then LastPhoneKept
    else if index < |phones| then Deleted(phones[..index] + phones[index + 1..])
    else Deleted(phones)
  }

  /** Deleting the row just added gives the rows back, once there was one. */
  lemma DeleteUndoesAdd(phones: seq<EditablePhone>)
    requires |phones| >= 1
    ensures DeletePhone(AddPhone(phones), |phones|) == Deleted(phones)
  {
    assert AddPhone(phones)[..|phones|] == phones;
  }

  /** handleSetPrimary: the row at `index` becomes the primary and no other row is. */
  function SetPrimaryAt(phones: seq<EditablePhone>, index: nat): (r: seq<EditablePhone>)
    ensures |r| == |phones|
    ensures forall i :: 0 <= i < |r| ==> r[i] == phones[i].(isPrimary := i == index)
  {
    seq(|phones|, i requires 0 <= i < |phones| => phones[i].(isPrimary := i == index))
  }

  predicate IsPrimary(p: EditablePhone) { p.isPrimary }

  /** After handleSetPrimary on a row of the form exactly one row is primary. */
  lemma SetPrimaryAtExactlyOne(phones: seq<EditablePhone>, index: nat)
    ensures Count(SetPrimaryAt(phones, index), IsPrimary) == if index < |phones| then 1 else 0
  {
    CountOnlyAt(SetPrimaryAt(phones, index), IsPrimary, index);
  }

  /** The field updatePhone replaces, with its new value. */
  datatype PhoneField = Label(labelText: string) | Number(number: string) | Primary(isPrimary: bool)

  function WithField(p: EditablePhone, field: PhoneField): EditablePhone
  {
    match field
    case Label(l) => p.(labelText := l)
    case Number(n) => p.(number := n)
    case Primary(b) => p.(isPrimary := b)
  }

  /** updatePhone: one field of one row changes, nothing else. */
  function UpdatePhone(phones: seq<EditablePhone>, index: nat, field: PhoneField): (r: seq<EditablePhone>)
    requires index < |phones|
    ensures |r| == |phones| && forall i :: 0 <= i < |r| && i != index ==> r[i] == phones[i]
    ensures r[index].id == phones[index].id && r[index].isNew == phones[index].isNew
    ensures field.Label? ==> r[index].labelText == field.labelText && r[index].number == phones[index].number && r[index].isPrimary == phones[index].isPrimary
    ensures field.Number? ==> r[index].number == field.number && r[index].labelText == phones[index].labelText && r[index].isPrimary == phones[index].isPrimary
    ensures field.Primary? ==> r[index].isPrimary == field.isPrimary && r[index].labelText == phones[index].labelText && r[index].number == phones[index].number
  {
    phones[index := WithField(phones[index], field)]
  }

  /** Editing a label or a number leaves the number of primary rows alone. */
  lemma UpdateTextKeepsPrimaries(phones: seq<EditablePhone>, index: nat, field: PhoneField)
    requires index < |phones| && !field.Primary?
    ensures Count(UpdatePhone(phones, index, field), IsPrimary) == Count(phones, IsPrimary)
  {
    CountUpdate(phones, index, WithField(phones[index], field), IsPrimary);
  }

  // ----- The save -----

  /** What validateAndFormatPhone says of a trimmed number: valid or not, an error text, a formatted number. */
  datatype Validation = Validation(isValid: bool, error: Option<string>, formatted: Option<string>)

  /** A row the save refuses, numbered from 1 as the alert shows it; the invalid-number case names the label and the reason. */
  datatype PhoneProblem =
    | LabelRequired(position: nat)
    | NumberRequired(position: nat)
    | InvalidNumber(position: nat, labelText: string, error: Option<string>)

  /** The reason an invalid-number alert gives: the validator's error, or a fixed text when it has none. */
  function Reason(problem: PhoneProblem): (r: string)
    requires problem.InvalidNumber?
    ensures problem.error.Some? && problem.error.value != "" ==> r == problem.error.value
  {
    OrElse(problem.error, "Invalid phone number format")
  }

  /** The check of one row: a blank label first, then a blank number, then the validator. */
  function ProblemOf(p: EditablePhone, position: nat, validate: string -> Validation): (r: Option<PhoneProblem>)
    ensures r.Some? ==> r.value.position == position
  {
    if Trim(p.labelText) == [] then Some(LabelRequired(position))
    else if Trim(p.number) == [] then Some(NumberRequired(position))
    else
      var v := validate(Trim(p.number));
      if !v.isValid then Some(InvalidNumber(position, p.labelText, v.error))
      else None
  }

  /** A row passes exactly when its label and number are not blank and the validator takes the number; a blank label is reported first. */
  lemma ProblemOfCases(p: EditablePhone, position: nat, validate: string -> Validation)
    ensures ProblemOf(p, position, validate).None? <==>
      Trim(p.labelText) != [] && Trim(p.number) != [] && validate(Trim(p.number)).isValid
    ensures ProblemOf(p, position, validate) == Some(LabelRequired(position)) <==> Trim(p.labelText) == []
    ensures ProblemOf(p, position, validate) == Some(NumberRequired(position)) <==>
      Trim(p.labelText) != [] && Trim(p.number) == []
    ensures ProblemOf(p, position, validate).Some? && ProblemOf(p, position, validate).value.InvalidNumber? ==>
      ProblemOf(p, position, validate) == Some(InvalidNumber(position, p.labelText, validate(Trim(p.number)).error))
  {
  }

  function Problems(o: Option<PhoneProblem>): seq<PhoneProblem>
  {
    if o.Some? then [o.value] else []
  }

  /** The check of every row, row i + 1 at index i. */
  function Checks(phones: seq<EditablePhone>, validate: string -> Validation): (r: seq<Option<PhoneProblem>>)
    ensures |r| == |phones| && forall i :: 0 <= i < |r| ==> r[i] == ProblemOf(phones[i], i + 1, validate)
  {
    seq(|phones|, i requires 0 <= i < |phones| => ProblemOf(phones[i], i + 1, validate))
  }

  lemma ProblemOfPosition(p: EditablePhone, position: nat, validate: string -> Validation)
    ensures ProblemOf(p, position, validate).Some? ==> ProblemOf(p, position, validate).value.position == position
  {
  }

  /** Each check found names its own row. */
  predicate Numbered(checks: seq<Option<PhoneProblem>>)
  {
    forall i :: 0 <= i < |checks| && checks[i].Some? ==> checks[i].value.position == i + 1
  }

  /** The problems found, in row order: the push into `invalidPhones`. */
  function Collected(checks: seq<Option<PhoneProblem>>): seq<PhoneProblem>
  {
    if |checks| == 0 then [] else Collected(checks[..|checks| - 1]) + Problems(checks[|checks| - 1])
  }

  /** The problems of all the rows, in row order. */
  function PhoneProblems(phones: seq<EditablePhone>, validate: string -> Validation): seq<PhoneProblem>
  {
    Collected(Checks(phones, validate))
  }

  /**
   * Of numbered checks, every problem collected is the check of the row it
   * names, and the rows named increase: no row is named twice.
   */
  lemma {:induction false} CollectedSound(checks: seq<Option<PhoneProblem>>)
    requires Numbered(checks)
    ensures forall k :: 0 <= k < |Collected(checks)| ==>
      1 <= Collected(checks)[k].position <= |checks| && checks[Collected(checks)[k].position - 1] == Some(Collected(checks)[k])
    ensures forall k, l :: 0 <= k < l < |Collected(checks)| ==> Collected(checks)[k].position < Collected(checks)[l].position
  {
    if |checks| > 0 {
      var init := checks[..|checks| - 1];
      assert Numbered(init) by {
        assert forall i :: 0 <= i < |init| ==> init[i] == checks[i];
      }
      CollectedSound(init);
      var rest := Collected(init);
      var last := Problems(checks[|checks| - 1]);
      var r := Collected(checks);
      assert r == rest + last;
      forall k | 0 <= k < |rest|
        ensures r[k] == rest[k] && 1 <= r[k].position <= |init| && checks[r[k].position - 1] == Some(r[k])
      {
        assert 1 <= rest[k].position <= |init| && init[rest[k].position - 1] == Some(rest[k]);
        assert init[rest[k].position - 1] == checks[rest[k].position - 1];
      }
      if |last| == 1 {
        assert r[|rest|] == last[0] == checks[|checks| - 1].value;
      }
    }
  }

  /** Every check that finds a problem is collected. */
  lemma {:induction false} CollectedComplete(checks: seq<Option<PhoneProblem>>, i: nat)
    requires Numbered(checks) && i < |checks| && checks[i].Some?
    ensures exists k :: 0 <= k < |Collected(checks)| && Collected(checks)[k].position == i + 1
  {
    var init := checks[..|checks| - 1];
    var r := Collected(checks);
    if i == |checks| - 1 {
      assert r[|r| - 1].position == i + 1;
    } else {
      assert Numbered(init) by {
        assert forall j :: 0 <= j < |init| ==> init[j] == checks[j];
      }
      assert init[i] == checks[i];
      CollectedComplete(init, i);
      var k :| 0 <= k < |Collected(init)| && Collected(init)[k].position == i + 1;
      assert r[k] == Collected(init)[k];
    }
  }

  /** Each problem reported names a row that has it, and the rows named increase. */
  lemma PhoneProblemsSound(phones: seq<EditablePhone>, validate: string -> Validation)
    ensures forall k :: 0 <= k < |PhoneProblems(phones, validate)| ==>
      var problem := PhoneProblems(phones, validate)[k];
      1 <= problem.position <= |phones| && ProblemOf(phones[problem.position - 1], problem.position, validate) == Some(problem)
    ensures forall k, l :: 0 <= k < l < |PhoneProblems(phones, validate)| ==>
      PhoneProblems(phones, validate)[k].position < PhoneProblems(phones, validate)[l].position
  {
    CollectedSound(Checks(phones, validate));
  }

  /** Every row that has a problem is reported. */
  lemma PhoneProblemsComplete(phones: seq<EditablePhone>, validate: string -> Validation, i: nat)
    requires i < |phones| && ProblemOf(phones[i], i + 1, validate).Some?
    ensures exists k :: 0 <= k < |PhoneProblems(phones, validate)| && PhoneProblems(phones, validate)[k].position == i + 1
  {
    var checks := Checks(phones, validate);
    assert checks[i].Some?;
    CollectedComplete(checks, i);
    assert PhoneProblems(phones, validate) == Collected(checks);
  }

  /** No problem is reported exactly when every row passes. */
  lemma PhoneProblemsNone(phones: seq<EditablePhone>, validate: string -> Validation)
    ensures PhoneProblems(phones, validate) == [] <==>
      forall i :: 0 <= i < |phones| ==> ProblemOf(phones[i], i + 1, validate).None?
  {
    var checks := Checks(phones, validate);
    if PhoneProblems(phones, validate) == [] {
      forall i | 0 <= i < |phones|
        ensures ProblemOf(phones[i], i + 1, validate).None?
      {
        if checks[i].Some? {
          CollectedComplete(checks, i);
        }
      }
    } else {
      CollectedSound(checks);
      var problem := Collected(checks)[0];
      assert checks[problem.position - 1].Some?;
    }
  }

  /** The loop of handleSave that collects the invalid rows. */
  method CollectProblems(phones: seq<EditablePhone>, validate: string -> Validation) returns (invalid: seq<PhoneProblem>)
    ensures invalid == PhoneProblems(phones, validate)
  {
    ghost var checks := Checks(phones, validate);
    invalid := [];
    var i := 0;
    while i < |phones|
      invariant 0 <= i <= |phones|
      invariant invalid == Collected(checks[..i])
    {
      assert checks[..i + 1][..i] == checks[..i];
      var problem := ProblemOf(phones[i], i + 1, validate);
      invalid := invalid + Problems(problem);
      i := i + 1;
    }
    assert checks[..|phones|] == checks;
  }

  /** A row as it is sent: a new row has no id, the label is trimmed, the number formatted when the validator can. */
  datatype PhoneUpdate = PhoneUpdate(id: Option<nat>, labelText: string, number: string, isPrimary: bool)

  function FormatPhone(p: EditablePhone, validate: string -> Validation): (r: PhoneUpdate)
    ensures r.id == (if p.isNew then None else p.id)
    ensures r.isPrimary == p.isPrimary
    ensures Trimmed(r.labelText)
  {
    PhoneUpdate(if p.isNew then None else p.id, Trim(p.labelText), OrElse(validate(Trim(p.number)).formatted, Trim(p.number)), p.isPrimary)
  }

  function FormatPhones(phones: seq<EditablePhone>, validate: string -> Validation): (r: seq<PhoneUpdate>)
    ensures |r| == |phones| && forall i :: 0 <= i < |r| ==> r[i] == FormatPhone(phones[i], validate)
  {
    seq(|phones|, i requires 0 <= i < |phones| => FormatPhone(phones[i], validate))
  }

  predicate IsPrimaryUpdate(p: PhoneUpdate) { p.isPrimary }

  /** Formatting keeps the number of primary rows. */
  lemma {:induction false} FormatKeepsPrimaries(phones: seq<EditablePhone>, validate: string -> Validation)
    ensures Count(FormatPhones(phones, validate), IsPrimaryUpdate) == Count(phones, IsPrimary)
  {
    if |phones| > 0 {
      assert FormatPhones(phones, validate)[1..] == FormatPhones(phones[1..], validate);
      FormatKeepsPrimaries(phones[1..], validate);
    }
  }

  /** Rows loaded from the market keep their ids in the update. */
  lemma LoadedRowsKeepIds(m: Market, phones: seq<Phone>, validate: string -> Validation)
    ensures var sent := FormatPhones(LoadForm(m, phones).phones, validate);
      forall i :: 0 <= i < |phones| ==> sent[i].id == Some(phones[i].id)
  {
  }

  datatype MarketUpdate = MarketUpdate(
    name: string,
    stationCallLetters: string,
    airTime: string,
    timezone: string,
    list: FeedList,
    phones: seq<PhoneUpdate>)

  /** Why the save was refused, in the order the checks run. */
  datatype SaveError =
    | NameRequired
    | AirTimeRequired
    | PhoneRequired
    | NoPrimary
    | SeveralPrimaries
    | InvalidPhones(problems: seq<PhoneProblem>)

  datatype SaveOutcome = Send(update: MarketUpdate) | Refuse(error: SaveError)

  /**
   * handleSave up to the request: the first failing check refuses the save,
   * the phone rows are all checked together, and a form that passes is sent
   * trimmed and formatted.
   */
  function SaveForm(f: EditForm, validate: string -> Validation): (r: SaveOutcome)
    ensures r == Refuse(NameRequired) <==> Trim(f.name) == []
    ensures r == Refuse(AirTimeRequired) <==> Trim(f.name) != [] && Trim(f.airTime) == []
    ensures r == Refuse(PhoneRequired) <==> Trim(f.name) != [] && Trim(f.airTime) != [] && f.phones == []
    ensures r == Refuse(NoPrimary) <==>
      Trim(f.name) != [] && Trim(f.airTime) != [] && f.phones != [] && Count(f.phones, IsPrimary) == 0
    ensures r == Refuse(SeveralPrimaries) <==>
      Trim(f.name) != [] && Trim(f.airTime) != [] && Count(f.phones, IsPrimary) > 1
    ensures r.Refuse? && r.error.InvalidPhones? ==>
      Count(f.phones, IsPrimary) == 1 && r.error.problems == PhoneProblems(f.phones, validate) && r.error.problems != []
    ensures r.Send? ==>
      Trim(f.name) != [] && Trim(f.airTime) != [] && Count(f.phones, IsPrimary) == 1 &&
      (forall i :: 0 <= i < |f.phones| ==> ProblemOf(f.phones[i], i + 1, validate).None?) &&
      r.update == MarketUpdate(Trim(f.name), Trim(f.stationCallLetters), Trim(f.airTime), f.timezone, f.list,
        FormatPhones(f.phones, validate))
  {
    if Trim(f.name) == [] then Refuse(NameRequired)
    else if Trim(f.airTime) == [] then Refuse(AirTimeRequired)
    else if |f.phones| == 0 then Refuse(PhoneRequired)
    else if Count(f.phones, IsPrimary) == 0 then Refuse(NoPrimary)
    else if Count(f.phones, IsPrimary) > 1 then Refuse(SeveralPrimaries)
    else
      var problems := PhoneProblems(f.phones, validate);
      PhoneProblemsNone(f.phones, validate);
      if |problems| > 0 then Refuse(InvalidPhones(problems))
      else Send(MarketUpdate(Trim(f.name), Trim(f.stationCallLetters), Trim(f.airTime), f.timezone, f.list,
        FormatPhones(f.phones, validate)))
  }

  /** A form the save sends carries exactly one primary row. */
  lemma SentUpdateHasOnePrimary(f: EditForm, validate: string -> Validation)
    requires SaveForm(f, validate).Send?
    ensures Count(SaveForm(f, validate).update.phones, IsPrimaryUpdate) == 1
  {
    FormatKeepsPrimaries(f.phones, validate);
  }

  /**
   * Where the save ends: a sent update the server accepted takes the screen
   * back; a rejected request (`accepted` false) shows "Failed to save
   * changes" and stays on the screen with the form as it was; a refused form
   * shows its error and sends nothing.
   */
  datatype SaveResult = Saved(update: MarketUpdate) | SaveFailed(update: MarketUpdate) | Refused(error: SaveError)

  function AfterSend(o: SaveOutcome, accepted: bool): (r: SaveResult)
    ensures r.Saved? <==> o.Send? && accepted
    ensures r.SaveFailed? <==> o.Send? && !accepted
    ensures o.Send? ==> !r.Refused? && r.update == o.update
    ensures o.Refuse? ==> r == Refused(o.error)
  {
    match o
    case Send(update) => if accepted then Saved(update) else SaveFailed(update)
    case Refuse(error) => Refused(error)
  }

  /** handleSave: the checks, with the loop over the rows, then the request and its answer. */
  method HandleSave(f: EditForm, validate: string -> Validation, accepted: bool) returns (r: SaveResult)
    ensures r == AfterSend(SaveForm(f, validate), accepted)
  {
    var o := CheckForm(f, validate);
    r := AfterSend(o, accepted);
  }

  /** handleSave's checks, with the loop over the rows. */
  method CheckForm(f: EditForm, validate: string -> Validation) returns (r: SaveOutcome)
    ensures r == SaveForm(f, validate)
  {
    if Trim(f.name) == [] {
      return Refuse(NameRequired);
    }
    if Trim(f.airTime) == [] {
      return Refuse(AirTimeRequired);
    }
    if |f.phones| == 0 {
      return Refuse(PhoneRequired);
    }
    var primaryCount := Count(f.phones, IsPrimary);
    if primaryCount == 0 {
      return Refuse(NoPrimary);
    }
    if primaryCount > 1 {
      return Refuse(SeveralPrimaries);
    }
    var invalid := CollectProblems(f.phones, validate);
    if |invalid| > 0 {
      return Refuse(InvalidPhones(invalid));
    }
    r := Send(MarketUpdate(Trim(f.name), Trim(f.stationCallLetters), Trim(f.airTime), f.timezone, f.list,
      FormatPhones(f.phones, validate)));
  }
}
