/** The text-field check: a line's `text`, when present, must be a string or
    a non-empty language-to-string mapping. */
module TextCheck {
  import opened ScenarioTypes

  /** `validate_text_fields`: an empty mapping gives a warning and a value
      that is neither a string nor a mapping gives an error, each naming the
      line's index and id; an absent text, a string and a non-empty mapping
      give nothing. Findings come in line order, at most one per line. */
  method ValidateTextFields(c: Chapter) returns (errors: seq<Finding>)
    ensures forall i :: 0 <= i < |Lines(c)| ==>
      (EmptyText(i, Lines(c)[i].id) in errors <==> Lines(c)[i].text == Some(Dict(map[])))
    ensures forall i :: 0 <= i < |Lines(c)| ==>
      (BadText(i, Lines(c)[i].id) in errors <==> Lines(c)[i].text == Some(NonText))
    ensures forall f :: f in errors ==>
      (f.EmptyText? || f.BadText?) && f.index < |Lines(c)| && f.lineId == Lines(c)[f.index].id
    ensures forall a, b :: 0 <= a < b < |errors| ==> errors[a].index < errors[b].index
  {
    var lines := Lines(c);
    errors := [];
    for idx := 0 to |lines|
      invariant forall i :: 0 <= i < idx ==>
        (EmptyText(i, lines[i].id) in errors <==> lines[i].text == Some(Dict(map[])))
      invariant forall i :: 0 <= i < idx ==>
        (BadText(i, lines[i].id) in errors <==> lines[i].text == Some(NonText))
      invariant forall f :: f in errors ==>
        (f.EmptyText? || f.BadText?) && f.index < idx && f.lineId == lines[f.index].id
      invariant forall a, b :: 0 <= a < b < |errors| ==> errors[a].index < errors[b].index
    {
      var line := lines[idx];
      if line.text.Some? {
        var text := line.text.value;
        if text.Dict? {
          if text.entries == map[] {
            errors := errors + [EmptyText(idx, line.id)];
          }
        } else if !text.Str? {
          errors := errors + [BadText(idx, line.id)];
        }
      }
    }
  }
}
