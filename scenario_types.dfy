/** The in-memory shapes the scenario validator works on: a chapter document
    and its lines, the asset manifest, and the findings the checks report. */
module ScenarioTypes {

  datatype Option<+T> = None | Some(value: T)

  /** The `type` tag of a line. Every tag the validator does not test for,
      and a missing tag, is `OtherKind`. */
  datatype LineKind =
    | Label
    | Jump
    | ShowCharacter
    | ChangeExpression
    | HideCharacter
    | ChangeBackground
    | PlayBgm
    | PlaySe
    | PlayVoice
    | OtherKind

  /** The value of a line's `text` field: a plain string, a mapping from
      language code to string, or any other JSON value (number, list, null, ...). */
  datatype TextValue = Str(s: string) | Dict(entries: map<string, string>) | NonText

  /** One entry of a chapter's `lines`. Every field the validator reads is
      optional, whatever the line's kind; `None` is a field that is absent. */
  datatype Line = Line(
    id: Option<string>,
    kind: LineKind,
    name: Option<string>,
    target: Option<string>,
    character: Option<string>,
    expression: Option<string>,
    background: Option<string>,
    bgm: Option<string>,
    se: Option<string>,
    voice: Option<string>,
    text: Option<TextValue>)

  /** A line with no fields at all, to be updated with `.(field := ...)`. */
  const BLANK_LINE := Line(None, OtherKind, None, None, None, None, None, None, None, None, None)

  /** A chapter document. `schema_version` and `id` are only ever tested for
      presence; `lines` may be absent. */
  datatype Chapter = Chapter(hasSchemaVersion: bool, hasId: bool, lines: Option<seq<Line>>)

  /** `chapter.get('lines', [])`: a missing line list reads as empty. */
  function Lines(c: Chapter): seq<Line> {
    if c.lines.Some? then c.lines.value else []
  }

  /** An optional string field is truthy and equal to `k`: present and non-empty. */
  predicate Holds(o: Option<string>, k: string) {
    o == Some(k) && k != ""
  }

  /** An optional string field is truthy: present and non-empty. */
  predicate Truthy(o: Option<string>) {
    o.Some? && o.value != ""
  }

  /** The asset manifest. Each category is absent or a mapping whose keys
      are the registered asset keys (its values are never inspected, so
      only the key sets are kept); `characters` maps each character key to
      the set of its registered expression keys. */
  datatype Manifest = Manifest(
    characters: Option<map<string, set<string>>>,
    bg: Option<set<string>>,
    bgm: Option<set<string>>,
    sfx: Option<set<string>>,
    voice: Option<set<string>>)

  /** The four asset categories checked by plain key membership. */
  datatype Category = Bg | Bgm | Sfx | Voice

  /** `manifest.get('characters', {})`. */
  function Characters(m: Manifest): map<string, set<string>> {
    if m.characters.Some? then m.characters.value else map[]
  }

  function OrEmpty(o: Option<set<string>>): set<string> {
    if o.Some? then o.value else {}
  }

  /** `manifest.get(category, {})`: the registered keys of one category. */
  function Registry(m: Manifest, cat: Category): set<string> {
    match cat
    case Bg => OrEmpty(m.bg)
    case Bgm => OrEmpty(m.bgm)
    case Sfx => OrEmpty(m.sfx)
    case Voice => OrEmpty(m.voice)
  }

  /** The required top-level fields of a chapter. */
  datatype Field = SchemaVersion | ChapterId | LinesField

  predicate Present(c: Chapter, f: Field) {
    match f
    case SchemaVersion => c.hasSchemaVersion
    case ChapterId => c.hasId
    case LinesField => c.lines.Some?
  }

  datatype Severity = Error | Warning | Info

  /** One reported problem: what rule is violated and the key or index it
      names. The message text is not modelled. Character findings also
      record the collected reference they were raised for. */
  datatype Finding =
    | MissingField(field: Field)
    | MissingLineId(index: nat)
    | DuplicateLineId(id: string)
    | UndefinedJump(target: string)
    | UnusedLabel(name: string)
    | CharacterNotRegistered(reference: string, character: string)
    | ExpressionNotRegistered(reference: string, character: string, expression: string)
    | AssetNotRegistered(category: Category, key: string)
    | EmptyText(index: nat, lineId: Option<string>)
    | BadText(index: nat, lineId: Option<string>)

  /** The severity marker each message carries: an error, a warning or an info. */
  function SeverityOf(f: Finding): Severity {
    match f
    case UndefinedJump(_) => Warning
    case EmptyText(_, _) => Warning
    case UnusedLabel(_) => Info
    case _ => Error
  }

  /** No finding is reported twice. */
  predicate NoDuplicates(fs: seq<Finding>) {
    forall i, j :: 0 <= i < j < |fs| ==> fs[i] != fs[j]
  }

  /** Two duplicate-free lists with nothing in common concatenate to a
      duplicate-free list. */
  lemma NoDuplicatesAppend(a: seq<Finding>, b: seq<Finding>)
    requires NoDuplicates(a) && NoDuplicates(b)
    requires forall f :: f in a ==> f !in b
    ensures NoDuplicates(a + b)
  {
    forall i, j | 0 <= i < j < |a + b|
      ensures (a + b)[i] != (a + b)[j]
    {
      if i < |a| <= j {
        assert (a + b)[i] == a[i] && (a + b)[j] == b[j - |a|];
        assert a[i] in a && b[j - |a|] in b;
      } else if j < |a| {
        assert (a + b)[i] == a[i] && (a + b)[j] == a[j];
      } else {
        assert (a + b)[i] == b[i - |a|] && (a + b)[j] == b[j - |a|];
      }
    }
  }
}
