// The three input tables of the reporting script and the join indices built
// over them. The CSV loader itself is not modelled: each table arrives as a
// sequence of rows in file order, with the numeric columns already parsed.

module Tables {
  import opened Common

  /** A row of the clients table: column "Id" and, when the file has it, "Ciudad". */
  datatype Client = Client(id: string, city: Option<string>)

  /** A row of the materials table: "ID", "Nombre", "Valor Unitario" (parsed), "Categoria". */
  datatype Material = Material(id: string, name: string, unitValue: real, category: string)

  /** A row of the projects table: "ID Material", "ID Client", "Cantidad" (parsed). */
  datatype Project = Project(materialId: string, clientId: string, quantity: int)

  /** The dictionary `{key(row): row for row in rows}`: every key that occurs
      is present, and it maps to the LAST row carrying that key, because a
      later entry of the comprehension overwrites an earlier one. */
  function IndexBy<R>(rows: seq<R>, key: R -> string): (index: map<string, R>)
    ensures forall k :: k in index <==> exists i :: 0 <= i < |rows| && key(rows[i]) == k
    ensures forall k :: k in index ==> key(index[k]) == k && index[k] in rows
    decreases |rows|
  {
    if rows == [] then map[]
    else
      var front := rows[..|rows| - 1];
      var last := rows[|rows| - 1];
      var index := IndexBy(front, key);
      assert forall i :: 0 <= i < |front| ==> front[i] == rows[i];
      index[key(last) := last]
  }

  /** Last write wins: a row that no later row shares its key with is the
      one the index keeps for that key. */
  lemma {:induction false} IndexByLastWins<R>(rows: seq<R>, key: R -> string, i: nat)
    requires i < |rows|
    requires forall j :: i < j < |rows| ==> key(rows[j]) != key(rows[i])
    ensures key(rows[i]) in IndexBy(rows, key)
    ensures IndexBy(rows, key)[key(rows[i])] == rows[i]
    decreases |rows|
  {
    if i < |rows| - 1 {
      var front := rows[..|rows| - 1];
      assert front[i] == rows[i];
      forall j | i < j < |front| ensures key(front[j]) != key(front[i]) {
        assert front[j] == rows[j];
      }
      IndexByLastWins(front, key, i);
    }
  }

  /** `clients_dict`: client id to client row; of several clients with the
      same id, the last one is kept. */
  function ClientIndex(clients: seq<Client>): (index: map<string, Client>)
    ensures index.Keys == set c | c in clients :: c.id
    ensures forall k :: k in index ==> index[k].id == k && index[k] in clients
    ensures forall i :: 0 <= i < |clients| && (forall j :: i < j < |clients| ==> clients[j].id != clients[i].id)
                        ==> index[clients[i].id] == clients[i]
  {
    var key := (c: Client) => c.id;
    var index := IndexBy(clients, key);
    forall c | c in clients ensures c.id in index {
      var i :| 0 <= i < |clients| && clients[i] == c;
      assert key(clients[i]) == c.id;
    }
    forall i | 0 <= i < |clients| && (forall j :: i < j < |clients| ==> clients[j].id != clients[i].id)
      ensures index[clients[i].id] == clients[i]
    {
      IndexByLastWins(clients, key, i);
    }
    index
  }

  /** `materials_dict`: material id to material row; of several materials with
      the same id, the last one is kept. */
  function MaterialIndex(materials: seq<Material>): (index: map<string, Material>)
    ensures index.Keys == set m | m in materials :: m.id
    ensures forall k :: k in index ==> index[k].id == k && index[k] in materials
    ensures forall i :: 0 <= i < |materials| && (forall j :: i < j < |materials| ==> materials[j].id != materials[i].id)
                        ==> index[materials[i].id] == materials[i]
  {
    var key := (m: Material) => m.id;
    var index := IndexBy(materials, key);
    forall m | m in materials ensures m.id in index {
      var i :| 0 <= i < |materials| && materials[i] == m;
      assert key(materials[i]) == m.id;
    }
    forall i | 0 <= i < |materials| && (forall j :: i < j < |materials| ==> materials[j].id != materials[i].id)
      ensures index[materials[i].id] == materials[i]
    {
      IndexByLastWins(materials, key, i);
    }
    index
  }
}
