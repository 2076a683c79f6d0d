/** The `Widgets` table and the effect of the SQL statements the handlers
    issue against it (main.py). A table is the sequence of its rows in
    insertion order; no key is declared, so rows may repeat. Result sets
    are characterised by what they contain and how often (row order of a
    SELECT without ORDER BY is not promised by the store). */
module Table {
  import opened Widgets

  /** The WHERE clauses the handlers use. */
  datatype Where =
    | NameEq(name: string)                          // WHERE name = :name
    | NameAndPartsEq(name: string, parts: int)      // WHERE name = :name AND number_of_parts = :number_of_parts

  predicate Matches(w: Where, r: Row) {
    match w
    case NameEq(n) => r.name == n
    case NameAndPartsEq(n, k) => r.name == n && r.parts == k
  }

  /** SELECT * FROM Widgets WHERE w */
  function Select(t: seq<Row>, w: Where): (s: seq<Row>)
    ensures |s| <= |t|
    ensures forall i :: 0 <= i < |s| ==> Matches(w, s[i])
  {
    if t == [] then [] else (if Matches(w, t[0]) then [t[0]] else []) + Select(t[1..], w)
  }

  /** DELETE FROM Widgets WHERE w */
  function Delete(t: seq<Row>, w: Where): (s: seq<Row>)
    ensures |s| <= |t|
    ensures forall i :: 0 <= i < |s| ==> !Matches(w, s[i])
  {
    if t == [] then [] else (if Matches(w, t[0]) then [] else [t[0]]) + Delete(t[1..], w)
  }

  /** The SET of an UPDATE, applied to one row if it satisfies the WHERE. */
  function SetIfMatches(r: Row, w: Where, parts: int, updated: Stamp): Row {
    if Matches(w, r) then r.(parts := parts, updated := updated) else r
  }

  /** UPDATE Widgets SET number_of_parts = parts, date_updated = updated WHERE w */
  function Update(t: seq<Row>, w: Where, parts: int, updated: Stamp): (s: seq<Row>)
    ensures |s| == |t|
  {
    if t == [] then [] else [SetIfMatches(t[0], w, parts, updated)] + Update(t[1..], w, parts, updated)
  }

  // ---- SELECT ----

  /** A selection holds each matching row as often as the table does, and
      no other row. */
  lemma {:induction false} SelectCount(t: seq<Row>, w: Where, r: Row)
    ensures multiset(Select(t, w))[r] == if Matches(w, r) then multiset(t)[r] else 0
  {
    if t != [] {
      assert t == [t[0]] + t[1..];
      SelectCount(t[1..], w, r);
    }
  }

  lemma SelectMembers(t: seq<Row>, w: Where, r: Row)
    ensures r in Select(t, w) <==> r in t && Matches(w, r)
  {
    SelectCount(t, w, r);
  }

  lemma {:induction false} SelectAppend(a: seq<Row>, b: seq<Row>, w: Where)
    ensures Select(a + b, w) == Select(a, w) + Select(b, w)
  {
    if a != [] {
      var head := if Matches(w, a[0]) then [a[0]] else [];
      assert (a + b)[0] == a[0] && (a + b)[1..] == a[1..] + b;
      assert Select(a + b, w) == head + Select(a[1..] + b, w);
      SelectAppend(a[1..], b, w);
      assert Select(a, w) == head + Select(a[1..], w);
    } else {
      assert a + b == b;
    }
  }

  /** After an insert, a SELECT on the inserted name finds the rows it found
      before and, once more, the inserted row. */
  lemma InsertThenSelect(t: seq<Row>, r: Row)
    ensures multiset(Select(t + [r], NameEq(r.name))) == multiset(Select(t, NameEq(r.name))) + multiset{r}
  {
    SelectAppend(t, [r], NameEq(r.name));
    assert [r][1..] == [];
  }

  // ---- DELETE ----

  /** A delete removes every matching row and keeps every other row as often
      as the table held it. */
  lemma {:induction false} DeleteCount(t: seq<Row>, w: Where, r: Row)
    ensures multiset(Delete(t, w))[r] == if Matches(w, r) then 0 else multiset(t)[r]
  {
    if t != [] {
      assert t == [t[0]] + t[1..];
      DeleteCount(t[1..], w, r);
    }
  }

  lemma DeleteMembers(t: seq<Row>, w: Where, r: Row)
    ensures r in Delete(t, w) <==> r in t && !Matches(w, r)
  {
    DeleteCount(t, w, r);
  }

  /** The deleted rows are exactly the rows a SELECT with the same WHERE
      returns: the two together are the table. */
  lemma SelectDeletePartition(t: seq<Row>, w: Where)
    ensures multiset(Select(t, w)) + multiset(Delete(t, w)) == multiset(t)
  {
    forall r ensures (multiset(Select(t, w)) + multiset(Delete(t, w)))[r] == multiset(t)[r] {
      SelectCount(t, w, r);
      DeleteCount(t, w, r);
    }
  }

  /** After a delete, a SELECT with the same WHERE finds nothing. */
  lemma DeleteThenSelect(t: seq<Row>, w: Where)
    ensures Select(Delete(t, w), w) == []
  {
    var d := Delete(t, w);
    if Select(d, w) != [] {
      SelectMembers(d, w, Select(d, w)[0]);
    }
  }

  /** A delete that matches no row leaves the table as it was. */
  lemma {:induction false} DeleteNoMatch(t: seq<Row>, w: Where)
    requires forall i :: 0 <= i < |t| ==> !Matches(w, t[i])
    ensures Delete(t, w) == t
  {
    if t != [] {
      DeleteNoMatch(t[1..], w);
    }
  }

  lemma DeleteIdempotent(t: seq<Row>, w: Where)
    ensures Delete(Delete(t, w), w) == Delete(t, w)
  {
    DeleteNoMatch(Delete(t, w), w);
  }

  /** Deleting by name removes, among others, every row a delete by the same
      name and any part count would remove. */
  lemma {:induction false} DeleteByNameSubsumes(t: seq<Row>, name: string, parts: int)
    ensures Delete(Delete(t, NameAndPartsEq(name, parts)), NameEq(name)) == Delete(t, NameEq(name))
  {
    if t != [] {
      var inner := Delete(t[1..], NameAndPartsEq(name, parts));
      DeleteByNameSubsumes(t[1..], name, parts);
      if !Matches(NameAndPartsEq(name, parts), t[0]) {
        var once := [t[0]] + inner;
        assert once[0] == t[0] && once[1..] == inner;
        assert Delete(t, NameAndPartsEq(name, parts)) == once;
        assert Delete(once, NameEq(name))
            == (if Matches(NameEq(name), t[0]) then [] else [t[0]]) + Delete(inner, NameEq(name));
      } else {
        assert Delete(t, NameAndPartsEq(name, parts)) == [] + inner == inner;
        assert Delete(t, NameEq(name)) == [] + Delete(t[1..], NameEq(name));
      }
    }
  }

  // ---- UPDATE ----

  /** Row by row: a matching row gets the new part count and update stamp
      and keeps its name and creation stamp; any other row is unchanged. */
  lemma {:induction false} UpdateAt(t: seq<Row>, w: Where, parts: int, updated: Stamp, i: nat)
    requires i < |t|
    ensures var u := Update(t, w, parts, updated);
      && u[i].name == t[i].name
      && u[i].created == t[i].created
      && (Matches(w, t[i]) ==> u[i].parts == parts && u[i].updated == updated)
      && (!Matches(w, t[i]) ==> u[i] == t[i])
  {
    if i > 0 {
      UpdateAt(t[1..], w, parts, updated, i - 1);
    }
  }

  /** An update that matches no row leaves the table as it was. */
  lemma UpdateNoMatch(t: seq<Row>, w: Where, parts: int, updated: Stamp)
    requires forall i :: 0 <= i < |t| ==> !Matches(w, t[i])
    ensures Update(t, w, parts, updated) == t
  {
    var u := Update(t, w, parts, updated);
    forall i | 0 <= i < |t| ensures u[i] == t[i] {
      UpdateAt(t, w, parts, updated, i);
    }
  }

  /** Repeating an update by name changes nothing more. */
  lemma UpdateIdempotent(t: seq<Row>, name: string, parts: int, updated: Stamp)
    ensures var u := Update(t, NameEq(name), parts, updated);
      Update(u, NameEq(name), parts, updated) == u
  {
    var u := Update(t, NameEq(name), parts, updated);
    var v := Update(u, NameEq(name), parts, updated);
    forall i | 0 <= i < |t| ensures v[i] == u[i] {
      UpdateAt(t, NameEq(name), parts, updated, i);
      UpdateAt(u, NameEq(name), parts, updated, i);
    }
  }

  /** After an update by name, a SELECT on that name finds as many rows as
      before, each with the new part count and update stamp. */
  lemma {:induction false} UpdateThenSelect(t: seq<Row>, name: string, parts: int, updated: Stamp)
    ensures var s := Select(Update(t, NameEq(name), parts, updated), NameEq(name));
      && |s| == |Select(t, NameEq(name))|
      && forall i :: 0 <= i < |s| ==> s[i].parts == parts && s[i].updated == updated
  {
    if t != [] {
      UpdateThenSelect(t[1..], name, parts, updated);
    }
  }
}
