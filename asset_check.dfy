/** Asset references: one pass collects five sets of referenced keys
    (characters, backgrounds, music, sound effects, voices); the registry
    check then reports every key the manifest does not declare. */
module AssetCheck {
  import opened ScenarioTypes
  import opened RefSplit

  /** The line types that mention a character. */
  predicate ShowsCharacter(k: LineKind) {
    k == ShowCharacter || k == ChangeExpression || k == HideCharacter
  }

  /** The line type whose field feeds each asset category. */
  function SourceKind(cat: Category): LineKind {
    match cat
    case Bg => ChangeBackground
    case Bgm => PlayBgm
    case Sfx => PlaySe
    case Voice => PlayVoice
  }

  /** The character reference a line contributes: `character.expression`
      when both are non-empty, the bare `character` when only it is. */
  function CharacterRef(l: Line): (r: Option<string>)
    ensures r.Some? ==> ShowsCharacter(l.kind) && Truthy(l.character)
  {
    if ShowsCharacter(l.kind) && Truthy(l.character) then
      Some(if Truthy(l.expression) then l.character.value + [SEP] + l.expression.value
           else l.character.value)
    else None
  }

  /** The key a line contributes to an asset category. */
  function AssetRef(l: Line, cat: Category): (r: Option<string>)
    ensures r.Some? ==> l.kind == SourceKind(cat) && r.value != ""
  {
    var field := match cat
      case Bg => l.background
      case Bgm => l.bgm
      case Sfx => l.se
      case Voice => l.voice;
    if l.kind == SourceKind(cat) && Truthy(field) then Some(field.value) else None
  }

  /** The five kinds of reference the collector keeps apart. */
  datatype RefKind = Chars | Assets(category: Category)

  function LineRef(l: Line, kind: RefKind): Option<string> {
    match kind
    case Chars => CharacterRef(l)
    case Assets(cat) => AssetRef(l, cat)
  }

  /** Some line of `lines` contributes the key `k` of kind `kind`. */
  ghost predicate Mentions(lines: seq<Line>, kind: RefKind, k: string) {
    exists i :: 0 <= i < |lines| && LineRef(lines[i], kind) == Some(k)
  }

  /** The result of `collect_asset_references`: one set per kind. */
  datatype References = References(
    characters: set<string>,
    bg: set<string>,
    bgm: set<string>,
    sfx: set<string>,
    voice: set<string>)
  {
    function Of(kind: RefKind): set<string> {
      match kind
      case Chars => characters
      case Assets(Bg) => bg
      case Assets(Bgm) => bgm
      case Assets(Sfx) => sfx
      case Assets(Voice) => voice
    }

    /** The same sets with `k` added to the one of kind `kind`. */
    function Add(kind: RefKind, k: string): (r: References)
      ensures r.Of(kind) == Of(kind) + {k}
      ensures forall other :: other != kind ==> r.Of(other) == Of(other)
    {
      match kind
      case Chars => this.(characters := characters + {k})
      case Assets(Bg) => this.(bg := bg + {k})
      case Assets(Bgm) => this.(bgm := bgm + {k})
      case Assets(Sfx) => this.(sfx := sfx + {k})
      case Assets(Voice) => this.(voice := voice + {k})
    }
  }

  const NO_REFERENCES := References({}, {}, {}, {}, {})

  /** `collect_asset_references`: each set holds exactly the keys the
      chapter's lines contribute to it. */
  method CollectAssetReferences(c: Chapter) returns (refs: References)
    ensures forall kind, k :: k in refs.Of(kind) <==> Mentions(Lines(c), kind, k)
  {
    var lines := Lines(c);
    refs := NO_REFERENCES;
    for i := 0 to |lines|
      invariant forall kind, k :: k in refs.Of(kind) <==> Mentions(lines[..i], kind, k)
    {
      MentionsExtend(lines, i);
      var line := lines[i];
      if ShowsCharacter(line.kind) {
        var character, expression := line.character, line.expression;
        if Truthy(character) {
          if Truthy(expression) {
            refs := refs.Add(Chars, character.value + [SEP] + expression.value);
          } else {
            refs := refs.Add(Chars, character.value);
          }
        }
      }
      if line.kind == ChangeBackground && Truthy(line.background) {
        refs := refs.Add(Assets(Bg), line.background.value);
      }
      if line.kind == PlayBgm && Truthy(line.bgm) {
        refs := refs.Add(Assets(Bgm), line.bgm.value);
      }
      if line.kind == PlaySe && Truthy(line.se) {
        refs := refs.Add(Assets(Sfx), line.se.value);
      }
      if line.kind == PlayVoice && Truthy(line.voice) {
        refs := refs.Add(Assets(Voice), line.voice.value);
      }
    }
    assert lines[..|lines|] == lines;
  }

  /** What one more line adds to the mentioned keys. */
  lemma MentionsExtend(lines: seq<Line>, i: nat)
    requires i < |lines|
    ensures forall kind, k :: Mentions(lines[..i + 1], kind, k) <==>
      Mentions(lines[..i], kind, k) || LineRef(lines[i], kind) == Some(k)
  {
  }

  /** The registry check of one character reference. A reference that
      splits on `.` into exactly two pieces is a character and an
      expression: an unknown character is reported and its expression is
      then not looked at; a known character with an unknown expression is
      reported as such. Any other reference is looked up whole, as a bare
      character key. */
  function CheckCharacter(reference: string, chars: map<string, set<string>>): (r: Option<Finding>)
    ensures r.Some? ==> (r.value.CharacterNotRegistered? || r.value.ExpressionNotRegistered?)
                        && r.value.reference == reference
  {
    var parts := Split(reference);
    if |parts| == 2 then
      if parts[0] !in chars then Some(CharacterNotRegistered(reference, parts[0]))
      else if parts[1] !in chars[parts[0]] then Some(ExpressionNotRegistered(reference, parts[0], parts[1]))
      else None
    else if reference !in chars then Some(CharacterNotRegistered(reference, reference))
    else None
  }

  /** The findings the registry check owes for `lines` against `m`. */
  ghost predicate AssetFinding(lines: seq<Line>, m: Manifest, f: Finding) {
    match f
    case CharacterNotRegistered(r, _) => Mentions(lines, Chars, r) && CheckCharacter(r, Characters(m)) == Some(f)
    case ExpressionNotRegistered(r, _, _) => Mentions(lines, Chars, r) && CheckCharacter(r, Characters(m)) == Some(f)
    case AssetNotRegistered(cat, k) => Mentions(lines, Assets(cat), k) && k !in Registry(m, cat)
    case _ => false
  }

  /** The position of a finding's block in the report: characters first,
      then backgrounds, music, sound effects and voices. */
  function Block(f: Finding): nat {
    match f
    case AssetNotRegistered(Bg, _) => 1
    case AssetNotRegistered(Bgm, _) => 2
    case AssetNotRegistered(Sfx, _) => 3
    case AssetNotRegistered(Voice, _) => 4
    case _ => 0
  }

  predicate InBlockOrder(fs: seq<Finding>) {
    forall i, j :: 0 <= i < j < |fs| ==> Block(fs[i]) <= Block(fs[j])
  }

  /** `validate_asset_references`: every finding the registry check owes,
      each once, all errors, in block order. */
  method ValidateAssetReferences(c: Chapter, m: Manifest) returns (errors: seq<Finding>)
    ensures forall f :: f in errors <==> AssetFinding(Lines(c), m, f)
    ensures forall f :: f in errors ==> SeverityOf(f) == Error
    ensures NoDuplicates(errors)
    ensures InBlockOrder(errors)
  {
    var refs := CollectAssetReferences(c);
    var chars := CheckCharacters(refs.characters, Characters(m));
    var bg := CheckKeys(Bg, refs.bg, Registry(m, Bg));
    var bgm := CheckKeys(Bgm, refs.bgm, Registry(m, Bgm));
    var sfx := CheckKeys(Sfx, refs.sfx, Registry(m, Sfx));
    var voice := CheckKeys(Voice, refs.voice, Registry(m, Voice));
    AppendBlock(chars, bg, 1);
    AppendBlock(chars + bg, bgm, 2);
    AppendBlock(chars + bg + bgm, sfx, 3);
    AppendBlock(chars + bg + bgm + sfx, voice, 4);
    errors := chars + bg + bgm + sfx + voice;
    forall f
      ensures f in errors <==> AssetFinding(Lines(c), m, f)
    {
      assert f in errors <==> f in chars || f in bg || f in bgm || f in sfx || f in voice;
    }
  }

  /** One block of findings after the blocks before it keeps the report
      duplicate-free and in block order. */
  lemma AppendBlock(errors: seq<Finding>, block: seq<Finding>, b: nat)
    requires NoDuplicates(errors) && NoDuplicates(block) && InBlockOrder(errors)
    requires forall f :: f in errors ==> Block(f) < b
    requires forall f :: f in block ==> Block(f) == b
    ensures NoDuplicates(errors + block) && InBlockOrder(errors + block)
    ensures forall f :: f in errors + block ==> Block(f) <= b
  {
  }

  /** The loop over the character references. */
  method CheckCharacters(refs: set<string>, chars: map<string, set<string>>) returns (errors: seq<Finding>)
    ensures forall f :: f in errors <==>
      (f.CharacterNotRegistered? || f.ExpressionNotRegistered?) && f.reference in refs
      && CheckCharacter(f.reference, chars) == Some(f)
    ensures forall f :: f in errors ==> Block(f) == 0
    ensures NoDuplicates(errors)
  {
    errors := [];
    var todo := refs;
    while todo != {}
      invariant todo <= refs
      invariant forall f :: f in errors <==>
        (f.CharacterNotRegistered? || f.ExpressionNotRegistered?) && f.reference in refs - todo
        && CheckCharacter(f.reference, chars) == Some(f)
      invariant NoDuplicates(errors)
      decreases |todo|
    {
      var charRef :| charRef in todo;
      var parts := Split(charRef);
      if |parts| == 2 {
        var character, expression := parts[0], parts[1];
        if character !in chars {
          errors := errors + [CharacterNotRegistered(charRef, character)];
        } else if expression !in chars[character] {
          errors := errors + [ExpressionNotRegistered(charRef, character, expression)];
        }
      } else if charRef !in chars {
        errors := errors + [CharacterNotRegistered(charRef, charRef)];
      }
      todo := todo - {charRef};
    }
  }

  /** The loop over the keys of one asset category. */
  method CheckKeys(cat: Category, refs: set<string>, registered: set<string>) returns (errors: seq<Finding>)
    ensures forall f :: f in errors <==>
      f.AssetNotRegistered? && f.category == cat && f.key in refs && f.key !in registered
    ensures NoDuplicates(errors)
  {
    errors := [];
    var todo := refs;
    while todo != {}
      invariant todo <= refs
      invariant forall f :: f in errors <==>
        f.AssetNotRegistered? && f.category == cat && f.key in refs - todo && f.key !in registered
      invariant NoDuplicates(errors)
      decreases |todo|
    {
      var key :| key in todo;
      if key !in registered {
        errors := errors + [AssetNotRegistered(cat, key)];
      }
      todo := todo - {key};
    }
  }

  /** Every asset a line mentions is declared in the manifest, read off the
      line's own fields rather than off the collected keys. */
  predicate LineRegistered(l: Line, m: Manifest) {
    var chars := Characters(m);
    (ShowsCharacter(l.kind) && Truthy(l.character) ==>
       l.character.value in chars
       && (Truthy(l.expression) ==> l.expression.value in chars[l.character.value]))
    && (l.kind == ChangeBackground && Truthy(l.background) ==> l.background.value in Registry(m, Bg))
    && (l.kind == PlayBgm && Truthy(l.bgm) ==> l.bgm.value in Registry(m, Bgm))
    && (l.kind == PlaySe && Truthy(l.se) ==> l.se.value in Registry(m, Sfx))
    && (l.kind == PlayVoice && Truthy(l.voice) ==> l.voice.value in Registry(m, Voice))
  }

  ghost predicate AllRegistered(lines: seq<Line>, m: Manifest) {
    forall i :: 0 <= i < |lines| ==> LineRegistered(lines[i], m)
  }

  /** On a line that contributes a character reference, the character and
      expression names contain no separator. */
  predicate DotFreeNames(l: Line) {
    ShowsCharacter(l.kind) && Truthy(l.character) ==>
      SEP !in l.character.value && (l.expression.Some? ==> SEP !in l.expression.value)
  }

  /** A `character.expression` key of dot-free names: an unknown character
      gives exactly one "character not registered" and the expression is not
      looked at; a known character with an unknown expression gives exactly
      one "expression not registered". */
  lemma CheckCharacterOfPair(character: string, expression: string, chars: map<string, set<string>>)
    requires SEP !in character && SEP !in expression
    ensures var reference := character + [SEP] + expression;
      CheckCharacter(reference, chars) ==
        if character !in chars then Some(CharacterNotRegistered(reference, character))
        else if expression !in chars[character] then Some(ExpressionNotRegistered(reference, character, expression))
        else None
  {
    EncodedRefRoundTrip(character, expression);
  }

  /** A bare dot-free character key is looked up whole. */
  lemma CheckCharacterOfBare(character: string, chars: map<string, set<string>>)
    requires SEP !in character
    ensures CheckCharacter(character, chars) ==
      if character !in chars then Some(CharacterNotRegistered(character, character)) else None
  {
    SplitDotFree(character);
  }

  /** A key of kind `kind` passes the registry check. */
  predicate Passes(kind: RefKind, k: string, m: Manifest) {
    match kind
    case Chars => CheckCharacter(k, Characters(m)).None?
    case Assets(cat) => k in Registry(m, cat)
  }

  /** On a registered line with dot-free names, every key the line
      contributes passes the check. */
  lemma RegisteredLinePasses(l: Line, m: Manifest, kind: RefKind)
    requires DotFreeNames(l) && LineRegistered(l, m) && LineRef(l, kind).Some?
    ensures Passes(kind, LineRef(l, kind).value, m)
  {
    if kind == Chars {
      if Truthy(l.expression) {
        CheckCharacterOfPair(l.character.value, l.expression.value, Characters(m));
      } else {
        CheckCharacterOfBare(l.character.value, Characters(m));
      }
    }
  }

  /** On an unregistered line with dot-free names, some key the line
      contributes fails the check. */
  lemma UnregisteredLineFails(l: Line, m: Manifest) returns (kind: RefKind)
    requires DotFreeNames(l) && !LineRegistered(l, m)
    ensures LineRef(l, kind).Some? && !Passes(kind, LineRef(l, kind).value, m)
  {
    var chars := Characters(m);
    if ShowsCharacter(l.kind) && Truthy(l.character)
       && !(l.character.value in chars && (Truthy(l.expression) ==> l.expression.value in chars[l.character.value]))
    {
      kind := Chars;
      if Truthy(l.expression) {
        CheckCharacterOfPair(l.character.value, l.expression.value, chars);
      } else {
        CheckCharacterOfBare(l.character.value, chars);
      }
    } else if l.kind == ChangeBackground {
      kind := Assets(Bg);
    } else if l.kind == PlayBgm {
      kind := Assets(Bgm);
    } else if l.kind == PlaySe {
      kind := Assets(Sfx);
    } else {
      kind := Assets(Voice);
    }
  }

  /** Round trip: when no character or expression name contains a `.`, the
      check finds nothing exactly when the manifest declares every asset the
      chapter's lines mention. */
  lemma RegisteredIffNoFindings(lines: seq<Line>, m: Manifest)
    requires forall i :: 0 <= i < |lines| ==> DotFreeNames(lines[i])
    ensures AllRegistered(lines, m) ==> forall f :: !AssetFinding(lines, m, f)
    ensures !AllRegistered(lines, m) ==> exists f :: AssetFinding(lines, m, f)
  {
    if AllRegistered(lines, m) {
      forall f | AssetFinding(lines, m, f)
        ensures false
      {
        var kind := if f.AssetNotRegistered? then Assets(f.category) else Chars;
        var k := if f.AssetNotRegistered? then f.key else f.reference;
        assert Mentions(lines, kind, k);
        var i :| 0 <= i < |lines| && LineRef(lines[i], kind) == Some(k);
        RegisteredLinePasses(lines[i], m, kind);
      }
    } else {
      var i :| 0 <= i < |lines| && !LineRegistered(lines[i], m);
      var kind := UnregisteredLineFails(lines[i], m);
      var k := LineRef(lines[i], kind).value;
      assert Mentions(lines, kind, k);
      var f := if kind.Chars? then CheckCharacter(k, Characters(m)).value else AssetNotRegistered(kind.category, k);
      assert AssetFinding(lines, m, f);
    }
  }

  /** Without the dot-free condition the round trip fails: a registered
      expression whose name contains a `.` is still reported, because its
      key splits into three pieces and is looked up as a bare character. */
  lemma DottedExpressionIsReported()
    ensures var l := BLANK_LINE.(kind := ShowCharacter, character := Some("ann"), expression := Some("sad.tears"));
      var m := Manifest(Some(map["ann" := {"sad.tears"}]), None, None, None, None);
      var reference := "ann" + [SEP] + "sad.tears";
      AllRegistered([l], m) && AssetFinding([l], m, CharacterNotRegistered(reference, reference))
  {
    var ann, sadTears := "ann", "sad.tears";
    var l := BLANK_LINE.(kind := ShowCharacter, character := Some(ann), expression := Some(sadTears));
    var chars := map[ann := {sadTears}];
    var m := Manifest(Some(chars), None, None, None, None);
    var reference := ann + [SEP] + sadTears;
    assert LineRegistered(l, m);
    assert LineRef([l][0], Chars) == Some(reference);
    assert Mentions([l], Chars, reference);
    DottedExpressionSplitsInThree();
    assert |reference| != |ann|;
    assert reference !in chars;
  }

  /** Character "ann" is registered with "happy" only; a line shows her
      "sad": the one finding is "expression not registered". */
  lemma UnregisteredExpression()
    ensures var l := BLANK_LINE.(kind := ShowCharacter, character := Some("ann"), expression := Some("sad"));
      var m := Manifest(Some(map["ann" := {"happy"}]), None, None, None, None);
      forall f :: AssetFinding([l], m, f) <==> f == ExpressionNotRegistered("ann.sad", "ann", "sad")
  {
    var l := BLANK_LINE.(kind := ShowCharacter, character := Some("ann"), expression := Some("sad"));
    var m := Manifest(Some(map["ann" := {"happy"}]), None, None, None, None);
    var ann, sad := "ann", "sad";
    assert SEP !in ann && SEP !in sad;
    CheckCharacterOfPair(ann, sad, Characters(m));
    var key := ann + [SEP] + sad;
    OnlyCharacterMention(l, key);
    assert key == "ann.sad";
  }

  /** A one-line list whose line contributes only the character reference
      `r` mentions `r` and nothing else. */
  lemma OnlyCharacterMention(l: Line, r: string)
    requires LineRef(l, Chars) == Some(r)
    requires forall cat :: LineRef(l, Assets(cat)) == None
    ensures forall kind, k :: Mentions([l], kind, k) <==> kind == Chars && k == r
  {
    assert [l][0] == l;
  }
}
