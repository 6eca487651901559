/** Labels and jumps: one pass collects the set of declared label names and
    the set of jump targets; the check then reports every target with no
    label (a warning) and every label no jump names (an info). Only set
    difference is used: there is no reachability analysis. */
module JumpCheck {
  import opened ScenarioTypes

  /** Some `label` line declares the non-empty name `x`. */
  ghost predicate DeclaresLabel(lines: seq<Line>, x: string) {
    exists i :: 0 <= i < |lines| && lines[i].kind == Label && Holds(lines[i].name, x)
  }

  /** Some `jump` line targets the non-empty name `x`. */
  ghost predicate JumpsTo(lines: seq<Line>, x: string) {
    exists i :: 0 <= i < |lines| && lines[i].kind == Jump && Holds(lines[i].target, x)
  }

  /** `collect_labels_and_jumps`. */
  method CollectLabelsAndJumps(c: Chapter) returns (labels: set<string>, jumps: set<string>)
    ensures forall x :: x in labels <==> DeclaresLabel(Lines(c), x)
    ensures forall x :: x in jumps <==> JumpsTo(Lines(c), x)
  {
    var lines := Lines(c);
    labels, jumps := {}, {};
    for k := 0 to |lines|
      invariant forall x :: x in labels <==> DeclaresLabel(lines[..k], x)
      invariant forall x :: x in jumps <==> JumpsTo(lines[..k], x)
    {
      Extend(lines, k);
      var line := lines[k];
      if line.kind == Label && Truthy(line.name) {
        labels := labels + {line.name.value};
      }
      if line.kind == Jump && Truthy(line.target) {
        jumps := jumps + {line.target.value};
      }
    }
    assert lines[..|lines|] == lines;
  }

  /** What one more line adds to the declared labels and the jump targets. */
  lemma Extend(lines: seq<Line>, k: nat)
    requires k < |lines|
    ensures forall x :: DeclaresLabel(lines[..k + 1], x) <==>
      DeclaresLabel(lines[..k], x) || (lines[k].kind == Label && Holds(lines[k].name, x))
    ensures forall x :: JumpsTo(lines[..k + 1], x) <==>
      JumpsTo(lines[..k], x) || (lines[k].kind == Jump && Holds(lines[k].target, x))
  {
  }

  /** The findings the jump check owes for `lines`: a warning for each
      target no label declares, an info for each label no jump targets. */
  ghost predicate JumpFinding(lines: seq<Line>, f: Finding) {
    (f.UndefinedJump? && JumpsTo(lines, f.target) && !DeclaresLabel(lines, f.target))
    || (f.UnusedLabel? && DeclaresLabel(lines, f.name) && !JumpsTo(lines, f.name))
  }

  /** `validate_jumps`: every element of `jumps - labels` as a warning, then
      every element of `labels - jumps` as an info, each exactly once. No
      name is in both batches, and a name both declared and jumped to is in
      neither. */
  method ValidateJumps(c: Chapter) returns (errors: seq<Finding>)
    ensures forall f :: f in errors <==> JumpFinding(Lines(c), f)
    ensures NoDuplicates(errors)
    ensures forall i, j :: 0 <= i < j < |errors| ==> !(errors[i].UnusedLabel? && errors[j].UndefinedJump?)
    ensures forall x :: !(UndefinedJump(x) in errors && UnusedLabel(x) in errors)
    ensures forall x :: DeclaresLabel(Lines(c), x) && JumpsTo(Lines(c), x) ==>
      UndefinedJump(x) !in errors && UnusedLabel(x) !in errors
  {
    var labels, jumps := CollectLabelsAndJumps(c);
    var warnings := ReportUndefinedJumps(jumps - labels);
    var infos := ReportUnusedLabels(labels - jumps);
    NoDuplicatesAppend(warnings, infos);
    errors := warnings + infos;
  }

  /** The loop over `jumps - labels`: one warning per element. */
  method ReportUndefinedJumps(undefinedJumps: set<string>) returns (warnings: seq<Finding>)
    ensures forall f :: f in warnings <==> f.UndefinedJump? && f.target in undefinedJumps
    ensures NoDuplicates(warnings)
  {
    warnings := [];
    var todo := undefinedJumps;
    while todo != {}
      invariant todo <= undefinedJumps
      invariant forall f :: f in warnings <==> f.UndefinedJump? && f.target in undefinedJumps - todo
      invariant NoDuplicates(warnings)
      decreases |todo|
    {
      var jump :| jump in todo;
      warnings := warnings + [UndefinedJump(jump)];
      todo := todo - {jump};
    }
  }

  /** The loop over `labels - jumps`: one info per element. */
  method ReportUnusedLabels(unusedLabels: set<string>) returns (infos: seq<Finding>)
    ensures forall f :: f in infos <==> f.UnusedLabel? && f.name in unusedLabels
    ensures NoDuplicates(infos)
  {
    infos := [];
    var todo := unusedLabels;
    while todo != {}
      invariant todo <= unusedLabels
      invariant forall f :: f in infos <==> f.UnusedLabel? && f.name in unusedLabels - todo
      invariant NoDuplicates(infos)
      decreases |todo|
    {
      var name :| name in todo;
      infos := infos + [UnusedLabel(name)];
      todo := todo - {name};
    }
  }

  /** A label "start" and a jump to "missing": exactly one undefined target
      and one unused label. */
  lemma LabelAndStrayJump()
    ensures var lines := [BLANK_LINE.(id := Some("l1"), kind := Label, name := Some("start")),
                          BLANK_LINE.(id := Some("l2"), kind := Jump, target := Some("missing"))];
      forall f :: JumpFinding(lines, f) <==> f == UndefinedJump("missing") || f == UnusedLabel("start")
  {
    var lines := [BLANK_LINE.(id := Some("l1"), kind := Label, name := Some("start")),
                  BLANK_LINE.(id := Some("l2"), kind := Jump, target := Some("missing"))];
    assert lines[0].kind == Label && Holds(lines[0].name, "start");
    assert lines[1].kind == Jump && Holds(lines[1].target, "missing");
    assert forall x :: DeclaresLabel(lines, x) <==> x == "start";
    assert forall x :: JumpsTo(lines, x) <==> x == "missing";
  }
}
