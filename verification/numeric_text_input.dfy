/**
 * `NumericTextInput`: a text field whose arrow keys step the number it
 * shows. `parseFloat` and `String` on numbers are parameters.
 */
module NumericTextInput {
  import opened Wrappers
  import opened JsonValue

  /** What the component does with one event: whether it cancels the browser's default, and what it hands to `onChange`. */
  datatype Reaction = Reaction(preventDefault: bool, emitted: Option<string>)

  /** The number the field shows: what `parseFloat` reads from it, or 0 when that is not finite. */
  function CurrentNumber(value: string, parseFloat: string -> Num): (n: real)
    ensures parseFloat(value).Finite? ==> n == parseFloat(value).value
    ensures parseFloat(value).NonFinite? ==> n == 0.0
  {
    match parseFloat(value)
    case Finite(n) => n
    case NonFinite => 0.0
  }

  /**
   * `handleKeyDown`: ArrowUp emits the current number plus one and ArrowDown
   * minus one, both cancelling the default; any other key is left alone.
   */
  function HandleKeyDown(key: string, value: string, parseFloat: string -> Num, numberText: real -> string)
    : (r: Reaction)
    ensures r.preventDefault <==> key == "ArrowUp" || key == "ArrowDown"
    ensures r.emitted.Some? <==> r.preventDefault
    ensures key == "ArrowUp" ==> r.emitted == Some(numberText(CurrentNumber(value, parseFloat) + 1.0))
    ensures key == "ArrowDown" ==> r.emitted == Some(numberText(CurrentNumber(value, parseFloat) - 1.0))
  {
    if key == "ArrowUp" then
      var num := CurrentNumber(value, parseFloat);
      Reaction(true, Some(numberText(num + 1.0)))
    else if key == "ArrowDown" then
      var num := CurrentNumber(value, parseFloat);
      Reaction(true, Some(numberText(num - 1.0)))
    else
      Reaction(false, None)
  }

  /** A change of the text is handed on as typed, without parsing. */
  function HandleChange(text: string): (r: Reaction)
    ensures !r.preventDefault && r.emitted == Some(text)
  {
    Reaction(false, Some(text))
  }

  /**
   * ArrowUp then ArrowDown brings the field back to the number it showed,
   * as long as the text the first step printed reads back as that number.
   */
  lemma UpThenDown(value: string, parseFloat: string -> Num, numberText: real -> string)
    requires var up := CurrentNumber(value, parseFloat) + 1.0;
      parseFloat(numberText(up)) == Finite(up)
    ensures var up := HandleKeyDown("ArrowUp", value, parseFloat, numberText).emitted.value;
      HandleKeyDown("ArrowDown", up, parseFloat, numberText).emitted
        == Some(numberText(CurrentNumber(value, parseFloat)))
  {
    var n := CurrentNumber(value, parseFloat);
    var up := HandleKeyDown("ArrowUp", value, parseFloat, numberText).emitted.value;
    assert up == numberText(n + 1.0);
    assert CurrentNumber(up, parseFloat) == n + 1.0;
  }

  /** Text that does not read as a finite number steps from 0. */
  lemma UnreadableStepsFromZero(value: string, parseFloat: string -> Num, numberText: real -> string)
    requires parseFloat(value).NonFinite?
    ensures HandleKeyDown("ArrowUp", value, parseFloat, numberText).emitted == Some(numberText(1.0))
    ensures HandleKeyDown("ArrowDown", value, parseFloat, numberText).emitted == Some(numberText(-1.0))
  {
  }
}
