// The per-material usage report of `create_folders_and_files`: for every
// material, the projects that use it are scanned and their quantities and
// costs added up. Folder creation and the text file itself are modelled
// as a map from material name to the summary written under that name.

module MaterialReport {
  import opened Common
  import opened Tables

  /** The three figures a material's report states, and the match count behind the average. */
  datatype Summary = Summary(totalQuantity: int, totalCost: real, count: nat, average: real)

  /** The projects whose "ID Material" is id, in table order: each such project
      as often as it occurs in the table, and no other project. */
  function Matching(projects: seq<Project>, id: string): (r: seq<Project>)
    ensures |r| <= |projects|
    decreases |projects|
  {
    if projects == [] then []
    else
      var front := projects[..|projects| - 1];
      var last := projects[|projects| - 1];
      assert projects == front + [last];
      var r := Matching(front, id);
      if last.materialId == id then r + [last] else r
  }

  /** Scanning one more project adds it to the figures exactly when it matches. */
  lemma SumsSnoc(scanned: seq<Project>, p: Project, id: string, unitValue: real)
    ensures var before, after := Matching(scanned, id), Matching(scanned + [p], id);
            && |after| == |before| + (if p.materialId == id then 1 else 0)
            && QuantitySum(after) == QuantitySum(before) + (if p.materialId == id then p.quantity else 0)
            && CostSum(after, unitValue)
               == CostSum(before, unitValue) + (if p.materialId == id then p.quantity as real * unitValue else 0.0)
  {
    assert (scanned + [p])[..|scanned|] == scanned;
    var before := Matching(scanned, id);
    if p.materialId == id {
      assert (before + [p])[..|before|] == before;
    } else {
      assert before + [] == before;
    }
  }

  /** Matching keeps exactly the projects that reference id. */
  lemma {:induction false} MatchingMembers(projects: seq<Project>, id: string)
    ensures forall p :: p in Matching(projects, id) <==> p in projects && p.materialId == id
    decreases |projects|
  {
    if projects != [] {
      var front := projects[..|projects| - 1];
      assert projects == front + [projects[|projects| - 1]];
      MatchingMembers(front, id);
    }
  }

  /** Matching keeps every matching project as often as the table lists it. */
  lemma {:induction false} MatchingMultiplicity(projects: seq<Project>, id: string, p: Project)
    ensures multiset(Matching(projects, id))[p] == if p.materialId == id then multiset(projects)[p] else 0
    decreases |projects|
  {
    if projects != [] {
      var front := projects[..|projects| - 1];
      assert projects == front + [projects[|projects| - 1]];
      MatchingMultiplicity(front, id, p);
    }
  }

  function QuantitySum(ps: seq<Project>): int
    decreases |ps|
  {
    if ps == [] then 0 else QuantitySum(ps[..|ps| - 1]) + ps[|ps| - 1].quantity
  }

  /** The sum of quantity * unitValue, one term per project. */
  function CostSum(ps: seq<Project>, unitValue: real): real
    decreases |ps|
  {
    if ps == [] then 0.0
    else CostSum(ps[..|ps| - 1], unitValue) + ps[|ps| - 1].quantity as real * unitValue
  }

  /** What the report of material m states: totals over the matching projects,
      and an average that is 0 when nothing matches. */
  function Summarize(m: Material, projects: seq<Project>): Summary
  {
    var used := Matching(projects, m.id);
    var total := QuantitySum(used);
    Summary(total, CostSum(used, m.unitValue), |used|,
            if |used| > 0 then total as real / |used| as real else 0.0)
  }

  /** The figures gathered after scanning the projects in scanned. */
  ghost predicate Tallied(m: Material, scanned: seq<Project>, totalQuantity: int, totalCost: real, count: int)
  {
    var used := Matching(scanned, m.id);
    totalQuantity == QuantitySum(used) && totalCost == CostSum(used, m.unitValue) && count == |used|
  }

  lemma TalliedStep(m: Material, projects: seq<Project>, i: nat, totalQuantity: int, totalCost: real, count: int)
    requires i < |projects| && Tallied(m, projects[..i], totalQuantity, totalCost, count)
    ensures var p := projects[i];
            if p.materialId == m.id
            then Tallied(m, projects[..i + 1], totalQuantity + p.quantity, totalCost + p.quantity as real * m.unitValue, count + 1)
            else Tallied(m, projects[..i + 1], totalQuantity, totalCost, count)
  {
    PrefixSnoc(projects, i);
    SumsSnoc(projects[..i], projects[i], m.id, m.unitValue);
  }

  lemma TalliedSummary(m: Material, projects: seq<Project>, totalQuantity: int, totalCost: real, count: int)
    requires Tallied(m, projects, totalQuantity, totalCost, count)
    ensures Summarize(m, projects)
            == Summary(totalQuantity, totalCost, count, if count > 0 then totalQuantity as real / count as real else 0.0)
  {
  }

  /** The loop of `create_folders_and_files` for one material. */
  method AggregateMaterial(m: Material, projects: seq<Project>) returns (s: Summary)
    ensures s == Summarize(m, projects)
  {
    var totalQuantity := 0;
    var totalCost := 0.0;
    var count := 0;
    PrefixEnds(projects);
    var i := 0;
    while i < |projects|
      invariant 0 <= i <= |projects|
      invariant Tallied(m, projects[..i], totalQuantity, totalCost, count)
    {
      TalliedStep(m, projects, i, totalQuantity, totalCost, count);
      if projects[i].materialId == m.id {
        var quantity := projects[i].quantity;
        totalQuantity := totalQuantity + quantity;
        totalCost := totalCost + quantity as real * m.unitValue;
        count := count + 1;
      }
      i := i + 1;
    }
    TalliedSummary(m, projects, totalQuantity, totalCost, count);
    var average := if count > 0 then totalQuantity as real / count as real else 0.0;
    s := Summary(totalQuantity, totalCost, count, average);
  }

  lemma {:induction false} CostSumScales(ps: seq<Project>, unitValue: real)
    ensures CostSum(ps, unitValue) == QuantitySum(ps) as real * unitValue
    decreases |ps|
  {
    if ps != [] {
      CostSumScales(ps[..|ps| - 1], unitValue);
    }
  }

  /** The unit value is fixed per material, so the cost is the total quantity times it. */
  lemma TotalCostIsQuantityTimesUnitValue(m: Material, projects: seq<Project>)
    ensures Summarize(m, projects).totalCost == Summarize(m, projects).totalQuantity as real * m.unitValue
  {
    CostSumScales(Matching(projects, m.id), m.unitValue);
  }

  /** The average never divides by zero: with matches it times the count gives
      the total; without, every figure of the report is 0. */
  lemma AverageIsWellDefined(m: Material, projects: seq<Project>)
    ensures var s := Summarize(m, projects);
            (s.count > 0 ==> s.average * s.count as real == s.totalQuantity as real)
            && (s.count == 0 ==> s.totalQuantity == 0 && s.totalCost == 0.0 && s.average == 0.0)
  {
  }

  /** The count is the number of projects that reference the material. */
  lemma {:induction false} CountIsMatchingProjects(m: Material, projects: seq<Project>)
    ensures Summarize(m, projects).count == |set i | 0 <= i < |projects| && projects[i].materialId == m.id|
    decreases |projects|
  {
    if projects != [] {
      var n := |projects| - 1;
      var front := projects[..n];
      CountIsMatchingProjects(m, front);
      var before := set i | 0 <= i < n && front[i].materialId == m.id;
      var after := set i | 0 <= i < |projects| && projects[i].materialId == m.id;
      if projects[n].materialId == m.id {
        assert after == before + {n};
      } else {
        assert after == before;
      }
    }
  }

  /** A material that no project references reports total 0, cost 0 and average 0. */
  lemma UnusedMaterialReportsZero(m: Material, projects: seq<Project>)
    requires forall p :: p in projects ==> p.materialId != m.id
    ensures Summarize(m, projects) == Summary(0, 0.0, 0, 0.0)
  {
    MatchingMembers(projects, m.id);
  }

  lemma {:induction false} MatchingAppend(a: seq<Project>, b: seq<Project>, id: string)
    ensures Matching(a + b, id) == Matching(a, id) + Matching(b, id)
    decreases |b|
  {
    if b == [] {
      assert a + b == a;
    } else {
      var n := |b| - 1;
      assert (a + b)[..|a + b| - 1] == a + b[..n];
      MatchingAppend(a, b[..n], id);
    }
  }

  lemma {:induction false} QuantitySumAppend(a: seq<Project>, b: seq<Project>)
    ensures QuantitySum(a + b) == QuantitySum(a) + QuantitySum(b)
    decreases |b|
  {
    if b == [] {
      assert a + b == a;
    } else {
      var n := |b| - 1;
      assert (a + b)[..|a + b| - 1] == a + b[..n];
      QuantitySumAppend(a, b[..n]);
    }
  }

  /** Splitting the projects table splits the material's totals: usage found
      in either part adds up, so no project counts twice or goes missing. */
  lemma TotalsAdditive(m: Material, a: seq<Project>, b: seq<Project>)
    ensures Summarize(m, a + b).totalQuantity == Summarize(m, a).totalQuantity + Summarize(m, b).totalQuantity
    ensures Summarize(m, a + b).count == Summarize(m, a).count + Summarize(m, b).count
  {
    MatchingAppend(a, b, m.id);
    QuantitySumAppend(Matching(a, m.id), Matching(b, m.id));
  }

  /** A project that references another material leaves the report unchanged. */
  lemma OtherMaterialIgnored(m: Material, a: seq<Project>, p: Project, b: seq<Project>)
    requires p.materialId != m.id
    ensures Summarize(m, a + [p] + b) == Summarize(m, a + b)
  {
    MatchingAppend(a + [p], b, m.id);
    MatchingAppend(a, [p], m.id);
    MatchingAppend(a, b, m.id);
    assert Matching([p], m.id) == [] by {
      assert [p][..0] == [];
    }
  }

  /** The report directory after the run: one file per material name, holding
      the summary of the LAST material with that name, since a later material
      of the same name rewrites the same file. */
  function WrittenReports(materials: seq<Material>, projects: seq<Project>): map<string, Summary>
  {
    var byName := IndexBy(materials, (m: Material) => m.name);
    map n | n in byName :: Summarize(byName[n], projects)
  }

  /** There is a report for every material name and for nothing else. */
  lemma WrittenReportsNames(materials: seq<Material>, projects: seq<Project>)
    ensures WrittenReports(materials, projects).Keys == set m | m in materials :: m.name
  {
    var key := (m: Material) => m.name;
    forall m | m in materials ensures m.name in IndexBy(materials, key) {
      var i :| 0 <= i < |materials| && materials[i] == m;
      assert key(materials[i]) == m.name;
    }
  }

  lemma WrittenReportsStep(materials: seq<Material>, m: Material, projects: seq<Project>)
    ensures WrittenReports(materials + [m], projects)
            == WrittenReports(materials, projects)[m.name := Summarize(m, projects)]
  {
    assert (materials + [m])[..|materials|] == materials;
  }

  /** Every material's report says what its summary says. */
  lemma {:induction false} WrittenReportOfLastMaterial(materials: seq<Material>, projects: seq<Project>, i: nat)
    requires i < |materials|
    requires forall j :: i < j < |materials| ==> materials[j].name != materials[i].name
    ensures WrittenReports(materials, projects)[materials[i].name] == Summarize(materials[i], projects)
  {
    var key := (m: Material) => m.name;
    forall j | i < j < |materials| ensures key(materials[j]) != key(materials[i]) {
    }
    IndexByLastWins(materials, key, i);
  }

  /** Rewriting one file after the run is the same as rewriting it during the run. */
  lemma UnionUpdate(before: map<string, Summary>, written: map<string, Summary>, name: string, s: Summary)
    ensures (before + written)[name := s] == before + written[name := s]
  {
  }

  /** `create_folders_and_files`: a summary per material in table order, and the
      report directory, starting from what it held before, with each material's
      file (re)written. */
  method CreateReports(materials: seq<Material>, projects: seq<Project>, existing: map<string, Summary>)
    returns (reports: seq<Summary>, files: map<string, Summary>)
    ensures |reports| == |materials|
    ensures forall i :: 0 <= i < |materials| ==> reports[i] == Summarize(materials[i], projects)
    ensures files == existing + WrittenReports(materials, projects)
  {
    reports := [];
    files := existing;
    var i := 0;
    while i < |materials|
      invariant 0 <= i <= |materials|
      invariant |reports| == i
      invariant forall k :: 0 <= k < i ==> reports[k] == Summarize(materials[k], projects)
      invariant files == existing + WrittenReports(materials[..i], projects)
    {
      var summary := AggregateMaterial(materials[i], projects);
      reports := reports + [summary];
      UnionUpdate(existing, WrittenReports(materials[..i], projects), materials[i].name, summary);
      files := files[materials[i].name := summary];
      assert materials[..i + 1] == materials[..i] + [materials[i]];
      WrittenReportsStep(materials[..i], materials[i], projects);
      i := i + 1;
    }
    assert materials[..i] == materials;
  }
}
