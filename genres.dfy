/** The server actions and the listing of the admin genre page
    (src/app/admin/genres/page.tsx), over the genre table as a map from id to
    name. The database refuses a second genre with a name already in the table
    (error code P2002) and an update or delete of an id it does not hold
    (P2025). */
module Genres {
  import opened Wrappers
  import opened JsSemantics

  datatype Genre = Genre(id: string, name: string)

  /** How a server action ends: it returns, it throws its own error, or the
      database's error escapes it. */
  datatype ActionResult = Returned | Threw(message: string) | StoreThrew(code: string)

  /** An action run: the table afterwards and how the action ends. */
  datatype ActionOutcome = ActionOutcome(table: map<string, string>, result: ActionResult)

  /** `data.get(key)?.toString().trim()`: an absent field stays absent. */
  function TrimmedField(field: Option<string>): (r: Option<string>)
    ensures r.None? <==> field.None?
    ensures r.Some? ==> r.value == Trim(field.value)
    ensures Present(r) <==> field.Some? && !AllWhitespace(field.value, 0, |field.value|)
  {
    match field
    case None => None
    case Some(s) => Some(Trim(s))
  }

  /** No two genres share a name. */
  predicate NamesUnique(table: map<string, string>) {
    forall a, b :: a in table && b in table && a != b ==> table[a] != table[b]
  }

  /** Every stored name is non-empty and has no surrounding whitespace. */
  predicate NamesTrimmed(table: map<string, string>) {
    forall id :: id in table ==> table[id] != "" && Trimmed(table[id])
  }

  /** Is `name` already used by a genre other than `id`? */
  predicate NameTaken(table: map<string, string>, name: string, except: Option<string>) {
    exists id :: id in table && except != Some(id) && table[id] == name
  }

  /** `createGenre`: the table afterwards and how the action ends. A duplicate
      is caught and only reported, so the action still returns. */
  function Create(table: map<string, string>, field: Option<string>, newId: string)
    : (r: ActionOutcome)
    ensures r.result == Threw("Name is required") <==> !Present(TrimmedField(field))
    ensures r.result == Threw("Name is required") || r.result == Returned
    ensures r.result != Returned ==> r.table == table
    ensures r.table != table ==>
              field.Some? && newId !in table && r.table == table[newId := Trim(field.value)]
    ensures Present(TrimmedField(field)) && !NameTaken(table, Trim(field.value), None) && newId !in table
            ==> r.table == table[newId := Trim(field.value)]
    ensures field.Some? && NameTaken(table, Trim(field.value), None) ==> r.table == table
  {
    var genre := TrimmedField(field);
    if !Present(genre) then ActionOutcome(table, Threw("Name is required"))
    else if NameTaken(table, genre.value, None) || newId in table then ActionOutcome(table, Returned)
    else ActionOutcome(table[newId := genre.value], Returned)
  }

  /** `updateGenre`: renames one genre to the trimmed name. */
  function Update(table: map<string, string>, idField: Option<string>, nameField: Option<string>)
    : (r: ActionOutcome)
    ensures r.result == Threw("Invalid data") <==> !Present(idField) || !Present(TrimmedField(nameField))
    ensures r.result != Returned ==> r.table == table
    ensures r.result == Returned ==>
              idField.Some? && nameField.Some? && idField.value in table
              && r.table == table[idField.value := Trim(nameField.value)]
    ensures r.result == StoreThrew("P2025") <==>
              Present(idField) && Present(TrimmedField(nameField)) && idField.value !in table
    ensures r.result == StoreThrew("P2002") <==>
              Present(idField) && Present(TrimmedField(nameField)) && idField.value in table
              && NameTaken(table, Trim(nameField.value), idField)
    ensures r.result == Returned <==>
              Present(idField) && Present(TrimmedField(nameField)) && idField.value in table
              && !NameTaken(table, Trim(nameField.value), idField)
    ensures r.table.Keys == table.Keys
    ensures forall id :: id in table && Some(id) != idField ==> r.table[id] == table[id]
  {
    var name := TrimmedField(nameField);
    if !Present(idField) || !Present(name) then ActionOutcome(table, Threw("Invalid data"))
    else if idField.value !in table then ActionOutcome(table, StoreThrew("P2025"))
    else if NameTaken(table, name.value, idField) then ActionOutcome(table, StoreThrew("P2002"))
    else ActionOutcome(table[idField.value := name.value], Returned)
  }

  /** `deleteGenre`: removes one genre. */
  function Delete(table: map<string, string>, idField: Option<string>)
    : (r: ActionOutcome)
    ensures r.result == Threw("Invalid id") <==> !Present(idField)
    ensures r.result != Returned ==> r.table == table
    ensures r.result == Returned ==> idField.Some? && idField.value in table && r.table == table - {idField.value}
    ensures r.result == StoreThrew("P2025") <==> Present(idField) && idField.value !in table
    ensures r.result == Returned <==> Present(idField) && idField.value in table
    ensures r.table.Keys <= table.Keys && forall id :: id in r.table ==> r.table[id] == table[id]
  {
    if !Present(idField) then ActionOutcome(table, Threw("Invalid id"))
    else if idField.value !in table then ActionOutcome(table, StoreThrew("P2025"))
    else ActionOutcome(table - {idField.value}, Returned)
  }

  /** Adding a genre under a new id with an unused name keeps names unique. */
  lemma AddKeepsUnique(table: map<string, string>, id: string, name: string)
    requires NamesUnique(table) && id !in table && !NameTaken(table, name, None)
    ensures NamesUnique(table[id := name])
  {
    var t := table[id := name];
    forall a, b | a in t && b in t && a != b ensures t[a] != t[b] {
      if a == id { assert t[b] == table[b]; }
      else if b == id { assert t[a] == table[a]; }
    }
  }

  /** Renaming a genre to a name no other genre has keeps names unique. */
  lemma RenameKeepsUnique(table: map<string, string>, id: string, name: string)
    requires NamesUnique(table) && id in table && !NameTaken(table, name, Some(id))
    ensures NamesUnique(table[id := name])
  {
    var t := table[id := name];
    forall a, b | a in t && b in t && a != b ensures t[a] != t[b] {
      if a == id { assert t[b] == table[b]; }
      else if b == id { assert t[a] == table[a]; }
    }
  }

  /** The actions keep the table's names unique and trimmed. */
  lemma CreateKeepsNames(table: map<string, string>, field: Option<string>, newId: string)
    requires NamesUnique(table) && NamesTrimmed(table)
    ensures NamesUnique(Create(table, field, newId).table) && NamesTrimmed(Create(table, field, newId).table)
  {
    var r := Create(table, field, newId);
    if r.table != table {
      AddKeepsUnique(table, newId, Trim(field.value));
    }
  }

  lemma UpdateKeepsNames(table: map<string, string>, idField: Option<string>, nameField: Option<string>)
    requires NamesUnique(table) && NamesTrimmed(table)
    ensures NamesUnique(Update(table, idField, nameField).table) && NamesTrimmed(Update(table, idField, nameField).table)
  {
    var r := Update(table, idField, nameField);
    if r.result == Returned {
      RenameKeepsUnique(table, idField.value, Trim(nameField.value));
    }
  }

  lemma DeleteKeepsNames(table: map<string, string>, idField: Option<string>)
    requires NamesUnique(table) && NamesTrimmed(table)
    ensures NamesUnique(Delete(table, idField).table) && NamesTrimmed(Delete(table, idField).table)
  {
  }

  /** The genre table the page's actions change in place. */
  class GenreTable {
    var genres: map<string, string>

    /** The unique-name index and the trimming of the actions. */
    ghost predicate Valid()
      reads this
    {
      NamesUnique(genres) && NamesTrimmed(genres)
    }

    constructor ()
      ensures genres == map[] && Valid()
    {
      genres := map[];
    }

    /** `createGenre`; `newId` is the id the database generates. */
    method CreateGenre(field: Option<string>, newId: string) returns (result: ActionResult)
      modifies this
      ensures ActionOutcome(genres, result) == Create(old(genres), field, newId)
      ensures old(Valid()) ==> Valid()
    {
      var genre := TrimmedField(field);
      if !Present(genre) {
        return Threw("Name is required");
      }
      if NameTaken(genres, genre.value, None) || newId in genres {
        return Returned;
      }
      if Valid() { CreateKeepsNames(genres, field, newId); }
      genres := genres[newId := genre.value];
      result := Returned;
    }

    method UpdateGenre(idField: Option<string>, nameField: Option<string>) returns (result: ActionResult)
      modifies this
      ensures ActionOutcome(genres, result) == Update(old(genres), idField, nameField)
      ensures old(Valid()) ==> Valid()
    {
      var name := TrimmedField(nameField);
      if !Present(idField) || !Present(name) {
        return Threw("Invalid data");
      }
      var id := idField.value;
      if id !in genres {
        return StoreThrew("P2025");
      }
      if NameTaken(genres, name.value, idField) {
        return StoreThrew("P2002");
      }
      if Valid() { UpdateKeepsNames(genres, idField, nameField); }
      genres := genres[id := name.value];
      result := Returned;
    }

    method DeleteGenre(idField: Option<string>) returns (result: ActionResult)
      modifies this
      ensures ActionOutcome(genres, result) == Delete(old(genres), idField)
      ensures old(Valid()) ==> Valid()
    {
      if !Present(idField) {
        return Threw("Invalid id");
      }
      var id := idField.value;
      if id !in genres {
        return StoreThrew("P2025");
      }
      if Valid() { DeleteKeepsNames(genres, idField); }
      genres := genres - {id};
      result := Returned;
    }
  }

  /** Code-point lexicographic order on names, the order `orderBy: { name: "asc" }`
      is taken to use. */
  predicate NameLessEq(a: string, b: string) {
    a == [] || (b != [] && (a[0] < b[0] || (a[0] == b[0] && NameLessEq(a[1..], b[1..]))))
  }

  lemma {:induction false} NameLessEqTotal(a: string, b: string)
    ensures NameLessEq(a, b) || NameLessEq(b, a)
  {
    if a != [] && b != [] && a[0] == b[0] {
      NameLessEqTotal(a[1..], b[1..]);
    }
  }

  lemma {:induction false} NameLessEqTransitive(a: string, b: string, c: string)
    requires NameLessEq(a, b) && NameLessEq(b, c)
    ensures NameLessEq(a, c)
  {
    if a != [] && b != [] && c != [] && a[0] == b[0] && b[0] == c[0] {
      NameLessEqTransitive(a[1..], b[1..], c[1..]);
    }
  }

  predicate SortedByName(list: seq<Genre>) {
    forall i, j :: 0 <= i < j < |list| ==> NameLessEq(list[i].name, list[j].name)
  }

  /** A genre that sorts before every genre of a sorted listing can lead it. */
  lemma SortedCons(x: Genre, list: seq<Genre>)
    requires SortedByName(list)
    requires forall y :: y in list ==> NameLessEq(x.name, y.name)
    ensures SortedByName([x] + list)
  {
    var r := [x] + list;
    forall i, j | 0 <= i < j < |r| ensures NameLessEq(r[i].name, r[j].name) {
      if i == 0 {
        assert r[j] in list;
      } else {
        assert r[i] == list[i - 1] && r[j] == list[j - 1];
      }
    }
  }

  /** Places `g` in front of the first genre it sorts before. */
  function InsertByName(list: seq<Genre>, g: Genre): (r: seq<Genre>)
    ensures |r| == |list| + 1
  {
    if list == [] then [g]
    else if NameLessEq(g.name, list[0].name) then [g] + list
    else [list[0]] + InsertByName(list[1..], g)
  }

  lemma SortedTail(list: seq<Genre>)
    requires SortedByName(list) && list != []
    ensures SortedByName(list[1..])
  {
    forall i, j | 0 <= i < j < |list[1..]| ensures NameLessEq(list[1..][i].name, list[1..][j].name) {
      assert list[1..][i] == list[i + 1] && list[1..][j] == list[j + 1];
    }
  }

  /** Inserting into a sorted listing keeps it sorted and adds exactly `g`. */
  lemma {:induction false} InsertByNameSorted(list: seq<Genre>, g: Genre)
    requires SortedByName(list)
    ensures SortedByName(InsertByName(list, g))
    ensures multiset(InsertByName(list, g)) == multiset(list) + multiset{g}
  {
    if list == [] {
    } else if NameLessEq(g.name, list[0].name) {
      forall y | y in list ensures NameLessEq(g.name, y.name) {
        var k :| 0 <= k < |list| && list[k] == y;
        if k > 0 { NameLessEqTransitive(g.name, list[0].name, y.name); }
      }
      SortedCons(g, list);
    } else {
      SortedTail(list);
      InsertByNameSorted(list[1..], g);
      var rest := InsertByName(list[1..], g);
      NameLessEqTotal(g.name, list[0].name);
      forall y | y in rest ensures NameLessEq(list[0].name, y.name) {
        assert y in multiset(rest);
        if y != g {
          assert y in multiset(list[1..]);
          var k :| 0 <= k < |list[1..]| && list[1..][k] == y;
          assert list[k + 1] == y;
        }
      }
      SortedCons(list[0], rest);
      assert list == [list[0]] + list[1..];
    }
  }

  /** `genre.findMany({ orderBy: { name: "asc" } })`: every row once, sorted by name. */
  ghost function Listing(table: map<string, string>): (r: seq<Genre>)
    ensures SortedByName(r)
    ensures |r| == |table|
    ensures forall g :: g in r <==> g.id in table && table[g.id] == g.name
    decreases |table|
  {
    if table == map[] then []
    else
      var id :| id in table;
      var rest := table - {id};
      assert rest.Keys == table.Keys - {id};
      assert |rest| + 1 == |table| by {
        assert |rest.Keys| + 1 == |table.Keys|;
      }
      var listed := Listing(rest);
      var added := Genre(id, table[id]);
      var r := InsertByName(listed, added);
      InsertByNameSorted(listed, added);
      assert |r| == |table| by {
        assert |r| == |multiset(r)| == |multiset(listed)| + 1 == |listed| + 1;
      }
      assert forall g :: g in r <==> g in listed || g == added by {
        forall g ensures g in r <==> g in listed || g == added {
          assert g in r <==> g in multiset(r);
          assert g in listed <==> g in multiset(listed);
        }
      }
      r
  }
}
