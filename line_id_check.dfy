/** The line-id check: one pass over the lines with a set of the ids seen so
    far. A line without a (non-empty) id is reported by its index and never
    enters the set; an id already in the set is reported as a duplicate. */
module LineIdCheck {
  import opened ScenarioTypes

  /** `if not line_id`: the id is absent or empty. */
  predicate HasId(l: Line) {
    Truthy(l.id)
  }

  /** The contents of `seen_ids` after the first `n` lines. */
  function SeenIds(ls: seq<Line>, n: nat): set<string>
    requires n <= |ls|
  {
    if n == 0 then {}
    else SeenIds(ls, n - 1) + (if HasId(ls[n - 1]) then {ls[n - 1].id.value} else {})
  }

  /** How many of the first `n` lines carry the id `x`. */
  function Occurrences(ls: seq<Line>, n: nat, x: string): nat
    requires n <= |ls|
  {
    if n == 0 then 0
    else Occurrences(ls, n - 1, x) + (if Holds(ls[n - 1].id, x) then 1 else 0)
  }

  /** What the loop reports for line `i`, given the lines before it. */
  function IdFinding(ls: seq<Line>, i: nat): Option<Finding>
    requires i < |ls|
  {
    if !HasId(ls[i]) then Some(MissingLineId(i))
    else if ls[i].id.value in SeenIds(ls, i) then Some(DuplicateLineId(ls[i].id.value))
    else None
  }

  function AsSeq(o: Option<Finding>): seq<Finding> {
    if o.Some? then [o.value] else []
  }

  /** Everything the check reports for the first `n` lines, in line order. */
  function FindingsUpTo(ls: seq<Line>, n: nat): (fs: seq<Finding>)
    requires n <= |ls|
    ensures |fs| <= n
    ensures forall k :: 0 <= k < |fs| ==> SeverityOf(fs[k]) == Error
    ensures forall k :: 0 <= k < |fs| ==>
      (fs[k].MissingLineId? && fs[k].index < n) || fs[k].DuplicateLineId?
  {
    if n == 0 then []
    else FindingsUpTo(ls, n - 1) + AsSeq(IdFinding(ls, n - 1))
  }

  /** Everything the check reports for a line list. */
  function LineIdFindings(ls: seq<Line>): seq<Finding> {
    FindingsUpTo(ls, |ls|)
  }

  /** `validate_line_ids`: the findings for all of the chapter's lines. */
  method ValidateLineIds(c: Chapter) returns (errors: seq<Finding>)
    ensures errors == LineIdFindings(Lines(c))
  {
    var lines := Lines(c);
    errors := [];
    var seen: set<string> := {};
    for idx := 0 to |lines|
      invariant seen == SeenIds(lines, idx)
      invariant errors == FindingsUpTo(lines, idx)
    {
      var line := lines[idx];
      if !Truthy(line.id) {
        errors := errors + [MissingLineId(idx)];
        continue;
      }
      var lineId := line.id.value;
      if lineId in seen {
        errors := errors + [DuplicateLineId(lineId)];
      } else {
        seen := seen + {lineId};
      }
    }
  }

  /** An id has been seen exactly when one of the first `n` lines carries
      it, that is, when it occurs there at least once. */
  lemma {:induction false} SeenIdsMembers(ls: seq<Line>, n: nat, x: string)
    requires n <= |ls|
    ensures x in SeenIds(ls, n) <==> exists j :: 0 <= j < n && Holds(ls[j].id, x)
    ensures x in SeenIds(ls, n) <==> Occurrences(ls, n, x) > 0
  {
    if n > 0 {
      SeenIdsMembers(ls, n - 1, x);
    }
  }

  /** A line with an id is flagged exactly when an earlier line has the same
      id: the first occurrence never is, every later one always is. */
  lemma FlaggedIffRepeated(ls: seq<Line>, i: nat)
    requires i < |ls| && HasId(ls[i])
    ensures IdFinding(ls, i) == Some(DuplicateLineId(ls[i].id.value)) <==>
            exists j :: 0 <= j < i && ls[j].id == ls[i].id
    ensures IdFinding(ls, i) == None <==> forall j :: 0 <= j < i ==> ls[j].id != ls[i].id
  {
    SeenIdsMembers(ls, i, ls[i].id.value);
  }

  /** How many times `f` occurs in `fs`. */
  function CountOf(fs: seq<Finding>, f: Finding): nat {
    if fs == [] then 0
    else CountOf(fs[..|fs| - 1], f) + (if fs[|fs| - 1] == f then 1 else 0)
  }

  /** A finding occurs in a list exactly when its count there is positive. */
  lemma {:induction false} CountOfMember(fs: seq<Finding>, f: Finding)
    ensures f in fs <==> CountOf(fs, f) > 0
  {
    if fs != [] {
      var front := fs[..|fs| - 1];
      CountOfMember(front, f);
      assert fs == front + [fs[|fs| - 1]];
    }
  }

  /** Appending the finding of one line adds one to its count and to no other. */
  lemma CountOfSnoc(fs: seq<Finding>, o: Option<Finding>, f: Finding)
    ensures CountOf(fs + AsSeq(o), f) == CountOf(fs, f) + (if o == Some(f) then 1 else 0)
  {
    if o.Some? {
      assert (fs + [o.value])[..|fs|] == fs;
    } else {
      assert fs + [] == fs;
    }
  }

  /** How many of the first `n` lines report `f`. */
  function PerLineCount(ls: seq<Line>, n: nat, f: Finding): nat
    requires n <= |ls|
  {
    if n == 0 then 0
    else PerLineCount(ls, n - 1, f) + (if IdFinding(ls, n - 1) == Some(f) then 1 else 0)
  }

  /** Each line contributes its own finding, so counting in the report is
      counting over the lines. */
  lemma {:induction false} CountIsPerLine(ls: seq<Line>, n: nat, f: Finding)
    requires n <= |ls|
    ensures CountOf(FindingsUpTo(ls, n), f) == PerLineCount(ls, n, f)
  {
    if n > 0 {
      CountIsPerLine(ls, n - 1, f);
      CountOfSnoc(FindingsUpTo(ls, n - 1), IdFinding(ls, n - 1), f);
    }
  }

  /** Only line `i` itself, and only without an id, reports `MissingLineId(i)`. */
  lemma {:induction false} MissingPerLine(ls: seq<Line>, n: nat, i: nat)
    requires n <= |ls|
    ensures PerLineCount(ls, n, MissingLineId(i)) == if i < n && !HasId(ls[i]) then 1 else 0
  {
    if n > 0 {
      MissingPerLine(ls, n - 1, i);
    }
  }

  /** Every line carrying `x` after the first one reports it as a duplicate. */
  lemma {:induction false} DuplicatePerLine(ls: seq<Line>, n: nat, x: string)
    requires n <= |ls|
    ensures PerLineCount(ls, n, DuplicateLineId(x)) ==
            if Occurrences(ls, n, x) == 0 then 0 else Occurrences(ls, n, x) - 1
  {
    if n > 0 {
      DuplicatePerLine(ls, n - 1, x);
      SeenIdsMembers(ls, n - 1, x);
    }
  }

  /** A line without an id gives exactly one `MissingLineId` naming its
      index; a line with an id, or an index past `n`, gives none. */
  lemma MissingIdReportedOnce(ls: seq<Line>, n: nat, i: nat)
    requires n <= |ls|
    ensures CountOf(FindingsUpTo(ls, n), MissingLineId(i)) ==
            if i < n && !HasId(ls[i]) then 1 else 0
  {
    CountIsPerLine(ls, n, MissingLineId(i));
    MissingPerLine(ls, n, i);
  }

  /** An id carried by k > 0 of the first `n` lines gives exactly k - 1
      duplicate findings; an id carried by none of them gives none. */
  lemma DuplicateCount(ls: seq<Line>, n: nat, x: string)
    requires n <= |ls|
    ensures CountOf(FindingsUpTo(ls, n), DuplicateLineId(x)) ==
            if Occurrences(ls, n, x) == 0 then 0 else Occurrences(ls, n, x) - 1
  {
    CountIsPerLine(ls, n, DuplicateLineId(x));
    DuplicatePerLine(ls, n, x);
  }

  /** The id counts of the first `n` lines depend on those lines only. */
  lemma {:induction false} OccurrencesOfPrefix(s: seq<Line>, t: seq<Line>, n: nat, x: string)
    requires n <= |s| && n <= |t| && s[..n] == t[..n]
    ensures Occurrences(s, n, x) == Occurrences(t, n, x)
  {
    if n > 0 {
      assert s[..n - 1] == s[..n][..n - 1] && t[..n - 1] == t[..n][..n - 1];
      assert s[n - 1] == s[..n][n - 1] && t[n - 1] == t[..n][n - 1];
      OccurrencesOfPrefix(s, t, n - 1, x);
    }
  }

  /** The id counts of a concatenation: those of the front plus those of the
      first `k` lines of the back. */
  lemma {:induction false} OccurrencesAppend(a: seq<Line>, b: seq<Line>, k: nat, x: string)
    requires k <= |b|
    ensures Occurrences(a + b, |a| + k, x) == Occurrences(a, |a|, x) + Occurrences(b, k, x)
  {
    if k == 0 {
      assert (a + b)[..|a|] == a[..|a|];
      OccurrencesOfPrefix(a + b, a, |a|, x);
    } else {
      OccurrencesAppend(a, b, k - 1, x);
      assert (a + b)[|a| + k - 1] == b[k - 1];
    }
  }

  /** Line `i` is reported as missing its id exactly when it has none. */
  lemma MissingReportedIffIdless(ls: seq<Line>, i: nat)
    ensures MissingLineId(i) in LineIdFindings(ls) <==> i < |ls| && !HasId(ls[i])
  {
    MissingIdReportedOnce(ls, |ls|, i);
    CountOfMember(LineIdFindings(ls), MissingLineId(i));
  }

  /** An id is reported as a duplicate exactly when at least two lines carry it. */
  lemma DuplicateReportedIffRepeated(ls: seq<Line>, x: string)
    ensures DuplicateLineId(x) in LineIdFindings(ls) <==> Occurrences(ls, |ls|, x) >= 2
  {
    DuplicateCount(ls, |ls|, x);
    CountOfMember(LineIdFindings(ls), DuplicateLineId(x));
  }

  /** Two line lists in which `x` occurs equally often report it as a
      duplicate equally often. */
  lemma SameOccurrencesSameDuplicates(s: seq<Line>, t: seq<Line>, x: string)
    requires Occurrences(s, |s|, x) == Occurrences(t, |t|, x)
    ensures CountOf(LineIdFindings(s), DuplicateLineId(x)) ==
            CountOf(LineIdFindings(t), DuplicateLineId(x))
  {
    DuplicateCount(s, |s|, x);
    DuplicateCount(t, |t|, x);
  }

  /** A line without an id never causes or prevents a duplicate report:
      dropping it leaves every duplicate count unchanged. */
  lemma IdlessLineIsTransparent(a: seq<Line>, l: Line, b: seq<Line>, x: string)
    requires !HasId(l)
    ensures CountOf(LineIdFindings(a + [l] + b), DuplicateLineId(x)) ==
            CountOf(LineIdFindings(a + b), DuplicateLineId(x))
  {
    var front := a + [l];
    OccurrencesAppend(a, [l], 1, x);
    assert Occurrences([l], 1, x) == 0;
    OccurrencesAppend(front, b, |b|, x);
    OccurrencesAppend(a, b, |b|, x);
    SameOccurrencesSameDuplicates(front + b, a + b, x);
  }

  /** Two lines that share the id "l1": exactly one duplicate, on the second. */
  lemma TwoLinesSameId()
    ensures LineIdFindings([BLANK_LINE.(id := Some("l1")), BLANK_LINE.(id := Some("l1"))])
            == [DuplicateLineId("l1")]
  {
    var ls := [BLANK_LINE.(id := Some("l1")), BLANK_LINE.(id := Some("l1"))];
    assert FindingsUpTo(ls, 1) == [];
    assert SeenIds(ls, 1) == {"l1"};
    assert FindingsUpTo(ls, 2) == [] + [DuplicateLineId("l1")];
  }
}
