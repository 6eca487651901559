/** The chapter schema check: each required top-level field is tested on its
    own, so every missing one is reported and none hides another. */
module SchemaCheck {
  import opened ScenarioTypes

  /** Reports one `MissingField` error per absent field among
      `schema_version`, `id` and `lines`, in that order. */
  method ValidateChapterSchema(c: Chapter) returns (errors: seq<Finding>)
    ensures forall f :: MissingField(f) in errors <==> !Present(c, f)
    ensures forall e :: e in errors ==> e.MissingField? && SeverityOf(e) == Error
    ensures NoDuplicates(errors)
    ensures |errors| == CountMissing(c)
    ensures forall i, j :: 0 <= i < j < |errors| ==> Rank(errors[i].field) < Rank(errors[j].field)
  {
    errors := [];
    if !c.hasSchemaVersion {
      errors := errors + [MissingField(SchemaVersion)];
    }
    if !c.hasId {
      errors := errors + [MissingField(ChapterId)];
    }
    if c.lines.None? {
      errors := errors + [MissingField(LinesField)];
    }
  }

  /** The position of a field among the three tests. */
  function Rank(f: Field): nat {
    match f
    case SchemaVersion => 0
    case ChapterId => 1
    case LinesField => 2
  }

  /** How many of the three required fields are absent. */
  function CountMissing(c: Chapter): (n: nat)
    ensures n <= 3
    ensures n == 0 <==> forall f :: Present(c, f)
    ensures n == 3 <==> forall f :: !Present(c, f)
  {
    (if Present(c, SchemaVersion) then 0 else 1)
    + (if Present(c, ChapterId) then 0 else 1)
    + (if Present(c, LinesField) then 0 else 1)
  }
}
