// The two series behind the charts: material quantity by category
// (`plot_bar_chart`) and project count by client city (`plot_pie_chart`).
// The drawing itself is not modelled; each aggregator returns the
// insertion-ordered dictionary it would hand to the plotting library.

module Charts {
  import opened Common
  import opened Tables
  import opened Tallies
  import opened MaterialReport

  /** The "Categoria" column, in table order. */
  function Categories(materials: seq<Material>): (r: seq<string>)
    ensures |r| == |materials|
    decreases |materials|
  {
    if materials == [] then []
    else Categories(materials[..|materials| - 1]) + [materials[|materials| - 1].category]
  }

  lemma {:induction false} CategoriesMembers(materials: seq<Material>)
    ensures forall c :: c in Categories(materials) <==> exists m :: m in materials && m.category == c
    decreases |materials|
  {
    if materials != [] {
      var front := materials[..|materials| - 1];
      assert materials == front + [materials[|materials| - 1]];
      CategoriesMembers(front);
    }
  }

  /** Quantity of a category: the usage total of every material entry filed
      under it, so a material listed twice is counted twice. */
  function CategoryTotal(materials: seq<Material>, projects: seq<Project>, category: string): int
    decreases |materials|
  {
    if materials == [] then 0
    else
      var m := materials[|materials| - 1];
      CategoryTotal(materials[..|materials| - 1], projects, category)
      + (if m.category == category then Summarize(m, projects).totalQuantity else 0)
  }

  /** Usage total over all material entries. */
  function UsageTotal(materials: seq<Material>, projects: seq<Project>): int
    decreases |materials|
  {
    if materials == [] then 0
    else
      UsageTotal(materials[..|materials| - 1], projects)
      + Summarize(materials[|materials| - 1], projects).totalQuantity
  }

  /** A category no material entry carries has quantity 0. */
  lemma {:induction false} CategoryTotalAbsent(materials: seq<Material>, projects: seq<Project>, category: string)
    requires category !in Categories(materials)
    ensures CategoryTotal(materials, projects, category) == 0
    decreases |materials|
  {
    if materials != [] {
      CategoryTotalAbsent(materials[..|materials| - 1], projects, category);
    }
  }

  /** A category whose materials no project references has quantity 0. */
  lemma {:induction false} UnusedCategoryIsZero(materials: seq<Material>, projects: seq<Project>, category: string)
    requires forall m, p :: m in materials && m.category == category && p in projects ==> p.materialId != m.id
    ensures CategoryTotal(materials, projects, category) == 0
    decreases |materials|
  {
    if materials != [] {
      var front := materials[..|materials| - 1];
      var m := materials[|materials| - 1];
      assert forall x :: x in front ==> x in materials;
      UnusedCategoryIsZero(front, projects, category);
      if m.category == category {
        UnusedMaterialReportsZero(m, projects);
      }
    }
  }

  lemma MaterialsSnoc(done: seq<Material>, m: Material, projects: seq<Project>)
    ensures Categories(done + [m]) == Categories(done) + [m.category]
    ensures UsageTotal(done + [m], projects) == UsageTotal(done, projects) + Summarize(m, projects).totalQuantity
    ensures forall c :: CategoryTotal(done + [m], projects, c)
                        == CategoryTotal(done, projects, c) + (if m.category == c then Summarize(m, projects).totalQuantity else 0)
  {
    assert (done + [m])[..|done|] == done;
  }

  /** The dictionary of `plot_bar_chart` once the materials in done are processed. */
  ghost predicate CategoriesDone(t: Tally, done: seq<Material>, projects: seq<Project>)
  {
    && t.Valid()
    && t.labels == FirstSeen(Categories(done))
    && (forall c :: c in t.counts ==> t.counts[c] == CategoryTotal(done, projects, c))
    && t.Total() == UsageTotal(done, projects)
  }

  /** The dictionary while material m is matched against the projects in scanned. */
  ghost predicate CategoryScanned(t: Tally, done: seq<Material>, m: Material, scanned: seq<Project>, projects: seq<Project>)
  {
    && t.Valid()
    && m.category in t.counts
    && t.labels == FirstSeen(Categories(done + [m]))
    && t.counts[m.category] == CategoryTotal(done, projects, m.category) + QuantitySum(Matching(scanned, m.id))
    && (forall c :: c in t.counts && c != m.category ==> t.counts[c] == CategoryTotal(done, projects, c))
    && t.Total() == UsageTotal(done, projects) + QuantitySum(Matching(scanned, m.id))
  }

  /** Meeting material m lists its category after those met before, if it is new. */
  lemma TouchKeepsOrder(t: Tally, done: seq<Material>, m: Material, projects: seq<Project>)
    requires CategoriesDone(t, done, projects)
    ensures t.Touch(m.category).labels == FirstSeen(Categories(done + [m]))
  {
    assert (done + [m])[..|done|] == done;
    FirstSeenSnoc(Categories(done), m.category);
  }

  /** A category met for the first time starts from its total so far, which is 0. */
  lemma TouchStartsCategory(t: Tally, done: seq<Material>, m: Material, projects: seq<Project>)
    requires CategoriesDone(t, done, projects)
    ensures t.Touch(m.category).counts[m.category] == CategoryTotal(done, projects, m.category)
  {
    if m.category !in t.counts {
      assert m.category !in t.labels;
      CategoryTotalAbsent(done, projects, m.category);
    }
  }

  lemma CategoryTouchStep(t: Tally, done: seq<Material>, m: Material, projects: seq<Project>)
    requires CategoriesDone(t, done, projects)
    ensures CategoryScanned(t.Touch(m.category), done, m, [], projects)
  {
    TouchKeepsOrder(t, done, m, projects);
    TouchStartsCategory(t, done, m, projects);
    var touched := t.Touch(m.category);
    assert Matching([], m.id) == [];
    assert forall c :: c in touched.counts && c != m.category ==> c in t.counts;
  }

  lemma CategoryScanStep(t: Tally, done: seq<Material>, m: Material, scanned: seq<Project>, p: Project, projects: seq<Project>)
    requires CategoryScanned(t, done, m, scanned, projects)
    ensures p.materialId == m.id ==> CategoryScanned(t.Add(m.category, p.quantity), done, m, scanned + [p], projects)
    ensures p.materialId != m.id ==> CategoryScanned(t, done, m, scanned + [p], projects)
  {
    SumsSnoc(scanned, p, m.id, 0.0);
  }

  lemma CategoryFinishStep(t: Tally, done: seq<Material>, m: Material, projects: seq<Project>)
    requires CategoryScanned(t, done, m, projects, projects)
    ensures CategoriesDone(t, done + [m], projects)
  {
    MaterialsSnoc(done, m, projects);
    var used := Summarize(m, projects).totalQuantity;
    assert t.counts[m.category] == CategoryTotal(done + [m], projects, m.category);
    forall c | c in t.counts
      ensures t.counts[c] == CategoryTotal(done + [m], projects, c)
    {
    }
  }

  /** `plot_bar_chart`: every category gets a key when its material is first
      met, in that order, even if no project uses it; each matching project's
      quantity is then added under the material's category. */
  method CategoryQuantities(materials: seq<Material>, projects: seq<Project>) returns (t: Tally)
    ensures t.Valid()
    ensures t.labels == FirstSeen(Categories(materials))
    ensures forall c :: c in t.counts <==> exists m :: m in materials && m.category == c
    ensures forall c :: c in t.counts ==> t.counts[c] == CategoryTotal(materials, projects, c)
    ensures t.Total() == UsageTotal(materials, projects)
  {
    t := Empty;
    var i := 0;
    while i < |materials|
      invariant 0 <= i <= |materials|
      invariant CategoriesDone(t, materials[..i], projects)
    {
      var category := materials[i].category;
      var id := materials[i].id;
      CategoryTouchStep(t, materials[..i], materials[i], projects);
      t := t.Touch(category);
      PrefixEnds(projects);
      var j := 0;
      while j < |projects|
        invariant 0 <= j <= |projects|
        invariant CategoryScanned(t, materials[..i], materials[i], projects[..j], projects)
      {
        CategoryScanStep(t, materials[..i], materials[i], projects[..j], projects[j], projects);
        if projects[j].materialId == id {
          t := t.Add(category, projects[j].quantity);
        }
        PrefixSnoc(projects, j);
        j := j + 1;
      }
      PrefixEnds(projects);
      CategoryFinishStep(t, materials[..i], materials[i], projects);
      PrefixSnoc(materials, i);
      i := i + 1;
    }
    PrefixEnds(materials);
    CategoriesMembers(materials);
  }

  /** The city a project is counted under: its client's "Ciudad", or "Unknown"
      when the client id is not in the index or the client has no city. */
  function CityOf(p: Project, clientIndex: map<string, Client>): (city: string)
    ensures p.clientId in clientIndex && clientIndex[p.clientId].city.Some?
            ==> city == clientIndex[p.clientId].city.value
    ensures city != "Unknown" ==> p.clientId in clientIndex && clientIndex[p.clientId].city == Some(city)
  {
    if p.clientId in clientIndex && clientIndex[p.clientId].city.Some? then clientIndex[p.clientId].city.value
    else "Unknown"
  }

  /** Looked up in `clients_dict`, a project's city is the "Ciudad" of the last
      client row carrying its client id, and "Unknown" when no row carries the
      id or that row has no city. */
  lemma CityOfClient(p: Project, clients: seq<Client>, i: nat)
    requires i < |clients| && clients[i].id == p.clientId
    requires forall j :: i < j < |clients| ==> clients[j].id != clients[i].id
    ensures CityOf(p, ClientIndex(clients)) == if clients[i].city.Some? then clients[i].city.value else "Unknown"
  {
  }

  /** A project whose client id is in no client row is counted under "Unknown". */
  lemma CityOfMissingClient(p: Project, clients: seq<Client>)
    requires forall c :: c in clients ==> c.id != p.clientId
    ensures CityOf(p, ClientIndex(clients)) == "Unknown"
  {
  }

  /** The city of every project, in table order. */
  function Cities(projects: seq<Project>, clientIndex: map<string, Client>): (r: seq<string>)
    ensures |r| == |projects|
    decreases |projects|
  {
    if projects == [] then []
    else Cities(projects[..|projects| - 1], clientIndex) + [CityOf(projects[|projects| - 1], clientIndex)]
  }

  lemma {:induction false} CitiesMembers(projects: seq<Project>, clientIndex: map<string, Client>)
    ensures forall c :: c in Cities(projects, clientIndex) <==> exists p :: p in projects && CityOf(p, clientIndex) == c
    decreases |projects|
  {
    if projects != [] {
      var front := projects[..|projects| - 1];
      assert projects == front + [projects[|projects| - 1]];
      CitiesMembers(front, clientIndex);
    }
  }

  /** Number of projects counted under city. */
  function CityCount(projects: seq<Project>, clientIndex: map<string, Client>, city: string): nat
    decreases |projects|
  {
    if projects == [] then 0
    else
      CityCount(projects[..|projects| - 1], clientIndex, city)
      + (if CityOf(projects[|projects| - 1], clientIndex) == city then 1 else 0)
  }

  lemma {:induction false} CityCountAbsent(projects: seq<Project>, clientIndex: map<string, Client>, city: string)
    requires city !in Cities(projects, clientIndex)
    ensures CityCount(projects, clientIndex, city) == 0
    decreases |projects|
  {
    if projects != [] {
      var n := |projects| - 1;
      CityCountAbsent(projects[..n], clientIndex, city);
    }
  }

  /** The dictionary of `plot_pie_chart` once the projects in done are counted. */
  ghost predicate CitiesDone(t: Tally, done: seq<Project>, clientIndex: map<string, Client>)
  {
    && t.Valid()
    && t.labels == FirstSeen(Cities(done, clientIndex))
    && (forall c :: c in t.counts ==> t.counts[c] == CityCount(done, clientIndex, c) >= 1)
    && t.Total() == |done|
  }

  lemma CitiesSnoc(done: seq<Project>, p: Project, clientIndex: map<string, Client>)
    ensures Cities(done + [p], clientIndex) == Cities(done, clientIndex) + [CityOf(p, clientIndex)]
    ensures forall c :: CityCount(done + [p], clientIndex, c)
                        == CityCount(done, clientIndex, c) + (if CityOf(p, clientIndex) == c then 1 else 0)
  {
    assert (done + [p])[..|done|] == done;
  }

  /** Counting project p lists its city after those met before, if it is new. */
  lemma CityKeepsOrder(t: Tally, done: seq<Project>, p: Project, clientIndex: map<string, Client>)
    requires CitiesDone(t, done, clientIndex)
    ensures t.Touch(CityOf(p, clientIndex)).labels == FirstSeen(Cities(done + [p], clientIndex))
  {
    CitiesSnoc(done, p, clientIndex);
    FirstSeenSnoc(Cities(done, clientIndex), CityOf(p, clientIndex));
  }

  /** Counting project p adds one to its city's count and changes no other. */
  lemma CityCountsStep(t: Tally, done: seq<Project>, p: Project, clientIndex: map<string, Client>)
    requires CitiesDone(t, done, clientIndex)
    ensures var city := CityOf(p, clientIndex);
            var t' := t.Touch(city).Add(city, 1);
            forall c :: c in t'.counts ==> t'.counts[c] == CityCount(done + [p], clientIndex, c) >= 1
  {
    var city := CityOf(p, clientIndex);
    CitiesSnoc(done, p, clientIndex);
    if city !in t.counts {
      assert city !in t.labels;
      CityCountAbsent(done, clientIndex, city);
    }
    var t' := t.Touch(city).Add(city, 1);
    forall c | c in t'.counts
      ensures t'.counts[c] == CityCount(done + [p], clientIndex, c) >= 1
    {
      if c != city {
        assert c in t.counts;
      }
    }
  }

  lemma CityStep(t: Tally, done: seq<Project>, p: Project, clientIndex: map<string, Client>)
    requires CitiesDone(t, done, clientIndex)
    ensures CitiesDone(t.Touch(CityOf(p, clientIndex)).Add(CityOf(p, clientIndex), 1), done + [p], clientIndex)
  {
    CityKeepsOrder(t, done, p, clientIndex);
    CityCountsStep(t, done, p, clientIndex);
  }

  /** Counting the i-th project extends the counted prefix by one. */
  lemma CityPrefixStep(t: Tally, projects: seq<Project>, i: nat, clientIndex: map<string, Client>)
    requires i < |projects| && CitiesDone(t, projects[..i], clientIndex)
    ensures var city := CityOf(projects[i], clientIndex);
            CitiesDone(t.Touch(city).Add(city, 1), projects[..i + 1], clientIndex)
  {
    PrefixSnoc(projects, i);
    CityStep(t, projects[..i], projects[i], clientIndex);
  }

  /** Once every project is counted, every project's city is a key. */
  lemma CitiesCovered(t: Tally, projects: seq<Project>, clientIndex: map<string, Client>)
    requires CitiesDone(t, projects[..|projects|], clientIndex)
    ensures t.Valid()
    ensures t.labels == FirstSeen(Cities(projects, clientIndex))
    ensures forall p :: p in projects ==> CityOf(p, clientIndex) in t.counts
    ensures forall c :: c in t.counts ==> t.counts[c] == CityCount(projects, clientIndex, c) >= 1
    ensures t.Total() == |projects|
  {
    PrefixEnds(projects);
    CitiesMembers(projects, clientIndex);
  }

  /** `plot_pie_chart`: each project adds one to exactly one city, so the
      counts add up to the number of projects, and every listed city has at
      least one project. */
  method CityParticipation(projects: seq<Project>, clientIndex: map<string, Client>) returns (t: Tally)
    ensures t.Valid()
    ensures t.labels == FirstSeen(Cities(projects, clientIndex))
    ensures forall p :: p in projects ==> CityOf(p, clientIndex) in t.counts
    ensures forall c :: c in t.counts ==> t.counts[c] == CityCount(projects, clientIndex, c) >= 1
    ensures t.Total() == |projects|
  {
    t := Empty;
    PrefixEnds(projects);
    var i := 0;
    while i < |projects|
      invariant 0 <= i <= |projects|
      invariant CitiesDone(t, projects[..i], clientIndex)
    {
      var city := CityOf(projects[i], clientIndex);
      CityPrefixStep(t, projects, i, clientIndex);
      t := t.Touch(city);
      t := t.Add(city, 1);
      i := i + 1;
    }
    CitiesCovered(t, projects, clientIndex);
  }

  /** Number of projects whose client is not in the index or has no city. */
  function UnresolvedCount(projects: seq<Project>, clientIndex: map<string, Client>): nat
    decreases |projects|
  {
    if projects == [] then 0
    else
      var p := projects[|projects| - 1];
      UnresolvedCount(projects[..|projects| - 1], clientIndex)
      + (if p.clientId !in clientIndex || clientIndex[p.clientId].city.None? then 1 else 0)
  }

  /** Every project whose client cannot be resolved to a city is counted under
      "Unknown"; nothing else is, unless a client's city is literally "Unknown". */
  lemma {:induction false} UnknownCollectsUnresolved(projects: seq<Project>, clientIndex: map<string, Client>)
    ensures CityCount(projects, clientIndex, "Unknown") >= UnresolvedCount(projects, clientIndex)
    ensures (forall k :: k in clientIndex && clientIndex[k].city.Some? ==> clientIndex[k].city.value != "Unknown")
            ==> CityCount(projects, clientIndex, "Unknown") == UnresolvedCount(projects, clientIndex)
    decreases |projects|
  {
    if projects != [] {
      UnknownCollectsUnresolved(projects[..|projects| - 1], clientIndex);
    }
  }
}
