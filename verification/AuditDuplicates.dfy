/**
  Repeated event groups, counted by three programs: the exporter (for the manifest and for its
  summary), the validator and the director gate. A row repeats when its non-blank group label
  occurs on another row too.
  */
module AuditDuplicates {
  import opened PyText

  function Labels(cells: seq<string>): (r: seq<string>)
    ensures |r| == |cells|
  {
    seq(|cells|, i requires 0 <= i < |cells| => Strip(cells[i]))
  }

  function Count(labels: seq<string>, g: string): nat {
    if labels == [] then 0
    else Count(labels[..|labels| - 1], g) + if labels[|labels| - 1] == g then 1 else 0
  }

  predicate Repeats(labels: seq<string>, i: nat)
    requires i < |labels|
  {
    labels[i] != "" && exists j :: 0 <= j < |labels| && j != i && labels[j] == labels[i]
  }

  function RepeatedRows(labels: seq<string>): set<nat> {
    set i: nat | i < |labels| && Repeats(labels, i)
  }

  function RepeatedGroups(labels: seq<string>): set<string> {
    set i: nat | i < |labels| && Repeats(labels, i) :: labels[i]
  }

  predicate PairwiseDistinct(labels: seq<string>) {
    forall i, j :: 0 <= i < j < |labels| && labels[i] == labels[j] ==> labels[i] == ""
  }

  // ----- counting and indices

  function RowsWith(labels: seq<string>, g: string): set<nat> {
    set i: nat | i < |labels| && labels[i] == g
  }

  lemma {:induction false} CountIsCardinality(labels: seq<string>, g: string)
    ensures |RowsWith(labels, g)| == Count(labels, g)
  {
    if labels != [] {
      var n := |labels| - 1;
      CountIsCardinality(labels[..n], g);
      var last: nat := n;
      assert RowsWith(labels, g) == RowsWith(labels[..n], g) + if labels[n] == g then {last} else {};
    }
  }

  lemma RepeatsIffCounted(labels: seq<string>, i: nat)
    requires i < |labels|
    ensures Repeats(labels, i) <==> labels[i] != "" && Count(labels, labels[i]) > 1
  {
    var g := labels[i];
    var mine := RowsWith(labels, g);
    CountIsCardinality(labels, g);
    assert i in mine;
    if j :| 0 <= j < |labels| && j != i && labels[j] == g {
      var pair: set<nat> := {i, j};
      assert pair <= mine;
      SubsetIsSmaller(pair, mine);
    } else {
      assert mine == {i};
    }
  }

  lemma SubsetIsSmaller(a: set<nat>, b: set<nat>)
    requires a <= b
    ensures |a| <= |b|
  {
    assert b == a + (b - a);
  }

  // ----- the loops

  ghost predicate Counted(counts: map<string, nat>, labels: seq<string>) {
    forall g :: (g in counts <==> g != "" && Count(labels, g) > 0) && (g in counts ==> counts[g] == Count(labels, g))
  }

  lemma CountOneMore(counts: map<string, nat>, labels: seq<string>, i: nat)
    requires i < |labels| && Counted(counts, labels[..i])
    ensures var g := labels[i];
            var more := counts[g := (if g in counts then counts[g] else 0) + 1];
            Counted(if g == "" then counts else more, labels[..i + 1])
  {
    assert labels[..i + 1][..i] == labels[..i];
  }

  /** The dict every program fills: how often each non-blank label occurs. */
  method CountLabels(cells: seq<string>) returns (counts: map<string, nat>)
    ensures forall g :: g in counts <==> g != "" && Count(Labels(cells), g) > 0
    ensures forall g :: g in counts ==> counts[g] == Count(Labels(cells), g)
  {
    var labels := Labels(cells);
    counts := map[];
    for i := 0 to |labels|
      invariant Counted(counts, labels[..i])
    {
      var group := labels[i];
      CountOneMore(counts, labels, i);
      if group != "" {
        counts := counts[group := (if group in counts then counts[group] else 0) + 1];
      }
    }
    assert labels[..|labels|] == labels;
  }

  /** The repeated labels among `done`, and the rows carrying them. */
  ghost function GroupsIn(labels: seq<string>, done: set<string>): set<string> {
    set g | g in done && g != "" && Count(labels, g) > 1
  }

  ghost function RowsIn(labels: seq<string>, done: set<string>): set<nat> {
    set i: nat | i < |labels| && labels[i] in GroupsIn(labels, done)
  }

  lemma OneMoreGroup(labels: seq<string>, done: set<string>, g: string)
    requires g !in done && g != ""
    ensures GroupsIn(labels, done + {g}) == GroupsIn(labels, done) + if Count(labels, g) > 1 then {g} else {}
    ensures g !in GroupsIn(labels, done)
  {
  }

  lemma RowsOfMoreGroups(labels: seq<string>, done: set<string>, g: string)
    requires g !in done && g != ""
    ensures RowsIn(labels, done + {g})
         == RowsIn(labels, done) + if Count(labels, g) > 1 then RowsWith(labels, g) else {}
    ensures RowsIn(labels, done) !! RowsWith(labels, g)
  {
    OneMoreGroup(labels, done, g);
  }

  lemma OneMoreLabel(labels: seq<string>, done: set<string>, g: string)
    requires g !in done && g != ""
    ensures var repeated := Count(labels, g) > 1;
            && |GroupsIn(labels, done + {g})| == |GroupsIn(labels, done)| + (if repeated then 1 else 0)
            && |RowsIn(labels, done + {g})| == |RowsIn(labels, done)| + if repeated then Count(labels, g) else 0
  {
    OneMoreGroup(labels, done, g);
    RowsOfMoreGroups(labels, done, g);
    CountIsCardinality(labels, g);
  }

  lemma AllLabelsDone(labels: seq<string>, done: set<string>)
    requires forall g :: g in done <==> g != "" && Count(labels, g) > 0
    ensures GroupsIn(labels, done) == RepeatedGroups(labels)
    ensures RowsIn(labels, done) == RepeatedRows(labels)
  {
    forall i: nat | i < |labels|
      ensures Repeats(labels, i) <==> labels[i] in GroupsIn(labels, done)
    {
      RepeatsIffCounted(labels, i);
    }
    forall g
      ensures g in GroupsIn(labels, done) <==> g in RepeatedGroups(labels)
    {
      if g in GroupsIn(labels, done) {
        CountIsCardinality(labels, g);
        var i :| i in RowsWith(labels, g);
      }
    }
  }

  /** The exporter's manifest entries: sums over the counts above one. */
  method DuplicateEventGroups(cells: seq<string>) returns (groups: nat, repeatedRows: nat)
    ensures groups == |RepeatedGroups(Labels(cells))|
    ensures repeatedRows == |RepeatedRows(Labels(cells))|
  {
    ghost var labels := Labels(cells);
    var counts := CountLabels(cells);
    groups, repeatedRows := 0, 0;
    var left := counts.Keys;
    ghost var done: set<string> := {};
    assert GroupsIn(labels, done) == {} && RowsIn(labels, done) == {};
    while left != {}
      invariant left <= counts.Keys && done == counts.Keys - left
      invariant groups == |GroupsIn(labels, done)|
      invariant repeatedRows == |RowsIn(labels, done)|
      decreases left
    {
      var g :| g in left;
      OneMoreLabel(labels, done, g);
      if counts[g] > 1 {
        groups, repeatedRows := groups + 1, repeatedRows + counts[g];
      }
      left := left - {g};
      done := done + {g};
    }
    AllLabelsDone(labels, done);
  }

  /** The summary's figure: for each repeated group, the rows beyond the first. */
  method PossibleDuplicates(cells: seq<string>) returns (surplus: nat)
    ensures |RepeatedRows(Labels(cells))| == surplus + |RepeatedGroups(Labels(cells))|
  {
    ghost var labels := Labels(cells);
    var counts := CountLabels(cells);
    surplus := 0;
    var left := counts.Keys;
    ghost var done: set<string> := {};
    assert GroupsIn(labels, done) == {} && RowsIn(labels, done) == {};
    while left != {}
      invariant left <= counts.Keys && done == counts.Keys - left
      invariant |RowsIn(labels, done)| == surplus + |GroupsIn(labels, done)|
      decreases left
    {
      var g :| g in left;
      OneMoreLabel(labels, done, g);
      if counts[g] > 1 {
        surplus := surplus + (counts[g] - 1);
      }
      left := left - {g};
      done := done + {g};
    }
    AllLabelsDone(labels, done);
  }

  datatype DuplicateError = GroupsMismatch(expected: nat, got: int) | RowsMismatch(expected: nat, got: int)

  /** The validator recomputes both figures and compares them with the manifest. */
  method CheckDuplicateReporting(manifestGroups: int, manifestRows: int, cells: seq<string>)
    returns (errors: seq<DuplicateError>)
    ensures errors == [] <==>
              manifestGroups == |RepeatedGroups(Labels(cells))| && manifestRows == |RepeatedRows(Labels(cells))|
  {
    var groups, rows := DuplicateEventGroups(cells);
    errors := [];
    if manifestGroups != groups {
      errors := errors + [GroupsMismatch(groups, manifestGroups)];
    }
    if manifestRows != rows {
      errors := errors + [RowsMismatch(rows, manifestRows)];
    }
  }

  /** The gate blocks on the share of repeated rows. */
  method DuplicateShareBlocks(cells: seq<string>, maxShare: real) returns (blocks: bool)
    ensures blocks <==>
              (if cells == [] then 0.0 else |RepeatedRows(Labels(cells))| as real / |cells| as real) > maxShare
    ensures maxShare == 0.0 ==> (blocks <==> !PairwiseDistinct(Labels(cells)))
  {
    var _, rows := DuplicateEventGroups(cells);
    NoneRepeatIff(Labels(cells));
    if |cells| == 0 {
      return 0.0 > maxShare;
    }
    blocks := rows as real / |cells| as real > maxShare;
    ShareIsZeroIff(rows, |cells|);
  }

  lemma ShareIsZeroIff(rows: nat, all: nat)
    requires all > 0
    ensures rows as real / all as real > 0.0 <==> rows > 0
  {
  }

  /** No row repeats exactly when the non-blank labels are pairwise distinct. */
  lemma NoneRepeatIff(labels: seq<string>)
    ensures |RepeatedRows(labels)| == 0 <==> PairwiseDistinct(labels)
    ensures labels == [] ==> PairwiseDistinct(labels)
  {
    if PairwiseDistinct(labels) {
      forall i: nat | i < |labels|
        ensures !Repeats(labels, i)
      {
      }
      assert RepeatedRows(labels) == {};
    } else {
      var i, j :| 0 <= i < j < |labels| && labels[i] == labels[j] && labels[i] != "";
      var k: nat := i;
      assert Repeats(labels, k);
      assert k in RepeatedRows(labels);
    }
  }

  /** What one program writes, the next accepts: exporter, validator, summary and gate in a row. */
  method ReportDuplicates(cells: seq<string>)
    returns (errors: seq<DuplicateError>, groups: nat, repeatedRows: nat, surplus: nat, blocked: bool)
    ensures groups == |RepeatedGroups(Labels(cells))| && repeatedRows == |RepeatedRows(Labels(cells))|
    ensures errors == []
    ensures surplus == repeatedRows - groups
    ensures blocked <==> repeatedRows > 0
    ensures repeatedRows == 0 <==> PairwiseDistinct(Labels(cells))
  {
    groups, repeatedRows := DuplicateEventGroups(cells);
    errors := CheckDuplicateReporting(groups, repeatedRows, cells);
    surplus := PossibleDuplicates(cells);
    blocked := DuplicateShareBlocks(cells, 0.0);
    NoneRepeatIff(Labels(cells));
  }
}
