/**
 * The worksheet form of the home page (app/page.tsx): the form fields, the
 * loading flag and the generated files, and the handlers that change them.
 * Generation itself is `Worksheet.GenerateWorksheet`; awaiting it is one step.
 */
module WorksheetPage {
  import opened Wrappers
  import opened JsStrings
  import opened JsValues
  import opened Seqs
  import Worksheet

  /** The question count the form starts with and falls back to. */
  const DefaultQcount: int := 10

  /**
   * The new `types` list after a check box changes: append on check, drop
   * every copy on uncheck. Afterwards the type is listed exactly when its box
   * is checked, and every other type keeps its count.
   */
  function ToggleType(types: seq<string>, t: string, checked: bool): (r: seq<string>)
    ensures t in r <==> checked
    ensures forall x :: x != t ==> multiset(r)[x] == multiset(types)[x]
  {
    if checked then types + [t]
    else
      FilterKeeps(types, (x: string) => x != t);
      Filter(types, (x: string) => x != t)
  }

  /** Checking appends the type after the entries already chosen. */
  lemma CheckAppends(types: seq<string>, t: string)
    ensures |ToggleType(types, t, true)| == |types| + 1
    ensures ToggleType(types, t, true)[..|types|] == types
    ensures ToggleType(types, t, true)[|types|] == t
  {
  }

  /**
   * Unchecking removes every occurrence of the type and keeps each other
   * entry, as often as it was there and in the same order.
   */
  lemma UncheckRemoves(types: seq<string>, t: string)
    ensures t !in ToggleType(types, t, false)
    ensures forall x :: x != t ==> multiset(ToggleType(types, t, false))[x] == multiset(types)[x]
    ensures IsSubsequence(ToggleType(types, t, false), types)
  {
    FilterKeeps(types, (x: string) => x != t);
  }

  /** Checking a type that was not chosen, then unchecking it, gives the list back. */
  lemma CheckThenUncheck(types: seq<string>, t: string)
    requires t !in types
    ensures ToggleType(ToggleType(types, t, true), t, false) == types
  {
    var keep := (x: string) => x != t;
    FilterAppend(types, [t], keep);
    FilterKeepsAll(types, keep);
    assert Filter([t], keep) == [];
  }

  /** `Number.parseInt(raw) || 10`: NaN and 0 are falsy and give 10. */
  function QcountFromInput(raw: string): (n: int)
    ensures n != 0
    ensures n == DefaultQcount || ParseInt(raw) == Some(n)
    ensures ParseInt(raw).None? ==> n == DefaultQcount
    ensures ParseInt(raw).Some? && ParseInt(raw).value != 0 ==> n == ParseInt(raw).value
  {
    match ParseInt(raw)
    case None => DefaultQcount
    case Some(v) => if v == 0 then DefaultQcount else v
  }

  /** Typing a positive number gives that number. */
  lemma QcountOfNumber(n: nat)
    requires n > 0
    ensures QcountFromInput(NatToString(n)) == n
  {
    ParseIntOfDecimal(n);
  }

  /** Clearing the field, or typing 0, gives the default. */
  lemma QcountOfEmptyOrZero()
    ensures QcountFromInput("") == DefaultQcount
    ensures QcountFromInput("0") == DefaultQcount
  {
    ParseIntOfDecimal(0);
    assert NatToString(0) == "0";
  }

  /** The form fields are filled in enough to submit. */
  predicate Complete(data: Worksheet.WorksheetData) {
    data.grade != "" && data.topic != "" && |data.types| > 0
  }

  /** What a submit did. */
  datatype SubmitOutcome = MissingFields | Generated | GenerationFailed

  /** The page's state: the form data, the loading flag and the last generated files. */
  class WorksheetForm {
    var grade: string
    var topic: string
    var qcount: int
    var types: seq<string>
    var withKey: bool
    var isLoading: bool
    var result: Option<Worksheet.WorksheetFiles>

    /** The form data as it is handed to generation. */
    function Data(): Worksheet.WorksheetData
      reads this
    {
      Worksheet.WorksheetData(grade, topic, qcount, types, withKey)
    }

    /** The form as the page opens it. */
    predicate IsBlank()
      reads this
    {
      grade == "" && topic == "" && qcount == DefaultQcount && types == [] && withKey
    }

    constructor()
      ensures IsBlank() && !isLoading && result.None?
    {
      grade, topic, qcount, types, withKey := "", "", DefaultQcount, [], true;
      isLoading, result := false, None;
    }

    /** A question-type check box changed; nothing else moves. */
    method HandleTypeChange(t: string, checked: bool)
      modifies this
      ensures types == ToggleType(old(types), t, checked)
      ensures grade == old(grade) && topic == old(topic) && qcount == old(qcount) && withKey == old(withKey)
      ensures isLoading == old(isLoading) && result == old(result)
    {
      types := ToggleType(types, t, checked);
    }

    method SetGrade(value: string)
      modifies this
      ensures Data() == old(Data()).(grade := value)
      ensures isLoading == old(isLoading) && result == old(result)
    {
      grade := value;
    }

    method SetTopic(value: string)
      modifies this
      ensures Data() == old(Data()).(topic := value)
      ensures isLoading == old(isLoading) && result == old(result)
    {
      topic := value;
    }

    /** The count field's text changed. */
    method SetQcountInput(raw: string)
      modifies this
      ensures Data() == old(Data()).(qcount := QcountFromInput(raw))
      ensures isLoading == old(isLoading) && result == old(result)
    {
      qcount := QcountFromInput(raw);
    }

    method SetWithKey(checked: bool)
      modifies this
      ensures Data() == old(Data()).(withKey := checked)
      ensures isLoading == old(isLoading) && result == old(result)
    {
      withKey := checked;
    }

    /**
     * Submit: an incomplete form starts nothing. Otherwise generation runs
     * on the current form data; its files replace the result when it
     * succeeds, a failure leaves the result alone, and loading ends either way.
     * `response` is what the language model sent back (`None` when the call failed).
     */
    method Submit(response: Option<string>, parse: string -> Option<seq<Value>>,
                  encode: Worksheet.Document -> string) returns (outcome: SubmitOutcome)
      modifies this
      ensures Data() == old(Data())
      ensures !Complete(old(Data())) ==>
                outcome == MissingFields && isLoading == old(isLoading) && result == old(result)
      ensures Complete(old(Data())) ==> !isLoading
      ensures Complete(old(Data())) ==>
                match Worksheet.GenerateWorksheet(old(Data()), response, parse, encode)
                case Ok(files) => outcome == Generated && result == Some(files)
                case Err(_) => outcome == GenerationFailed && result == old(result)
    {
      if !Complete(Data()) {
        return MissingFields;
      }
      isLoading := true;
      var r := Worksheet.GenerateWorksheet(Data(), response, parse, encode);
      if r.Ok? {
        result := Some(r.value);
        outcome := Generated;
      } else {
        outcome := GenerationFailed;
      }
      isLoading := false;
    }

    /** "Generate another": back to the blank form with no result. */
    method Reset()
      modifies this
      ensures IsBlank() && result.None?
      ensures isLoading == old(isLoading)
    {
      result := None;
      grade, topic, qcount, types, withKey := "", "", DefaultQcount, [], true;
    }
  }
}
