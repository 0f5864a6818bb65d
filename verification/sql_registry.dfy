/**
  How `setField` maintains the field-to-column registry: the name is split
  at its first `#`, a plain name replaces every column of its field, an
  indexed one drops the unindexed column and sets or appends the column of
  its index, and no other field changes.
*/
module SqlRegistry {
  import opened Outcomes
  import opened SqlGenerator

  /** Every registered field has at least one column. */
  predicate Mapped(fields: Fields) {
    forall name :: name in fields ==> |fields[name]| > 0
  }

  /** Every registered field has at least one column, and distinct indexes. */
  predicate WellFormed(fields: Fields) {
    Mapped(fields) && forall name :: name in fields ==> UniqueKeys(fields[name])
  }

  // ---------------------------------------------------------------- names

  /** A name with a `#` is the field name, the `#` and the index; the field name holds no `#`. */
  lemma SplitNameParts(name: string)
    ensures var (field, index) := SplitName(name);
      && '#' !in field
      && (index.None? <==> '#' !in name)
      && (index.None? ==> field == name)
      && (index.Some? ==> name == field + "#" + index.value)
  {
    match FirstIndex(name, '#')
    case None =>
    case Some(i) =>
      assert name == name[..i] + "#" + name[i + 1..];
  }

  /** The first `c` is found at `k` when `s[k]` is one and none comes before. */
  lemma {:induction false} FirstIndexAt(s: string, c: char, k: nat)
    requires k < |s| && s[k] == c && c !in s[..k]
    ensures FirstIndex(s, c) == Some(k)
  {
    if k > 0 {
      assert s[0] == s[..k][0];
      assert s[1..][..k - 1] == s[..k][1..];
      FirstIndexAt(s[1..], c, k - 1);
    }
  }

  /** Joining a field name without `#` and any index splits back into the two. */
  lemma SplitNameJoined(field: string, index: string)
    requires '#' !in field
    ensures SplitName(field + "#" + index) == (field, Some(index))
  {
    var name := field + "#" + index;
    assert name[..|field|] == field;
    assert name[|field| + 1..] == index;
    FirstIndexAt(name, '#', |field|);
  }

  // ---------------------------------------------------------------- columns

  /** The indexes in use. */
  function Keys(columns: Columns): set<string> {
    if |columns| == 0 then {} else {columns[0].0} + Keys(columns[1..])
  }

  /** No two columns of a field share an index. */
  predicate UniqueKeys(columns: Columns) {
    |columns| == 0 || (columns[0].0 !in Keys(columns[1..]) && UniqueKeys(columns[1..]))
  }

  /** A key is in use exactly when some column holds it. */
  lemma {:induction false} KeysHeld(columns: Columns, key: string)
    ensures key in Keys(columns) <==> ColumnAt(columns, key).Some?
  {
    if |columns| > 0 {
      KeysHeld(columns[1..], key);
    }
  }

  /** Assigning a key makes it map to the new column and keeps every other key. */
  lemma {:induction false} AssignAt(columns: Columns, key: string, column: Column, other: string)
    ensures ColumnAt(Assign(columns, key, column), key) == Some(column)
    ensures other != key ==> ColumnAt(Assign(columns, key, column), other) == ColumnAt(columns, other)
  {
    if |columns| > 0 && columns[0].0 != key {
      AssignAt(columns[1..], key, column, other);
      assert Assign(columns, key, column)[1..] == Assign(columns[1..], key, column);
    } else if |columns| > 0 {
      assert (([(key, column)] + columns[1..])[1..]) == columns[1..];
    }
  }

  /** An assignment adds its key to the keys in use and keeps them distinct. */
  lemma {:induction false} AssignKeys(columns: Columns, key: string, column: Column)
    requires UniqueKeys(columns)
    ensures |Assign(columns, key, column)| > 0
    ensures Keys(Assign(columns, key, column)) == Keys(columns) + {key}
    ensures UniqueKeys(Assign(columns, key, column))
  {
    var r := Assign(columns, key, column);
    if |columns| > 0 && columns[0].0 != key {
      AssignKeys(columns[1..], key, column);
      assert r[1..] == Assign(columns[1..], key, column);
    } else if |columns| > 0 {
      assert r[1..] == columns[1..];
    }
  }

  /** Unsetting a key removes it and keeps every other key. */
  lemma {:induction false} UnsetAt(columns: Columns, key: string, other: string)
    ensures ColumnAt(Unset(columns, key), key) == None
    ensures other != key ==> ColumnAt(Unset(columns, key), other) == ColumnAt(columns, other)
  {
    if |columns| > 0 {
      UnsetAt(columns[1..], key, other);
      if columns[0].0 != key {
        assert Unset(columns, key)[1..] == Unset(columns[1..], key);
      }
    }
  }

  /** Unsetting removes exactly its key from the keys in use and keeps them distinct. */
  lemma {:induction false} UnsetKeys(columns: Columns, key: string)
    requires UniqueKeys(columns)
    ensures Keys(Unset(columns, key)) == Keys(columns) - {key}
    ensures UniqueKeys(Unset(columns, key))
  {
    if |columns| > 0 {
      UnsetKeys(columns[1..], key);
      if columns[0].0 != key {
        assert Unset(columns, key)[1..] == Unset(columns[1..], key);
      }
    }
  }

  // ---------------------------------------------------------------- setField

  /**
    A plain name maps its field to exactly the new column, under the
    unindexed key; no other field changes.
  */
  lemma SetFieldPlain(fields: Fields, name: string, column: string, alias: Option<string>, dbType: string)
    requires '#' !in name
    ensures var r := SetField(fields, name, column, alias, dbType);
      && r.Keys == fields.Keys + {name}
      && r[name] == [("", Column(column, alias, dbType))]
      && forall other :: other in fields && other != name ==> r[other] == fields[other]
  {
    SplitNameParts(name);
  }

  /**
    An indexed name sets the column of its index, drops the unindexed column,
    and leaves the columns of every other index, and every other field, as
    they were.
  */
  lemma SetFieldIndexed(fields: Fields, field: string, index: string, column: string, alias: Option<string>, dbType: string, other: string)
    requires '#' !in field
    ensures var r := SetField(fields, field + "#" + index, column, alias, dbType);
      && r.Keys == fields.Keys + {field}
      && ColumnAt(r[field], index) == Some(Column(column, alias, dbType))
      && (index != "" ==> ColumnAt(r[field], "") == None)
      && (other != index && other != "" ==> ColumnAt(r[field], other) == ColumnAt(ColumnsOf(fields, field), other))
      && forall g :: g in fields && g != field ==> r[g] == fields[g]
  {
    SplitNameJoined(field, index);
    var kept := Unset(ColumnsOf(fields, field), "");
    var mapped := Column(column, alias, dbType);
    AssignAt(kept, index, mapped, other);
    AssignAt(kept, index, mapped, "");
    UnsetAt(ColumnsOf(fields, field), "", other);
  }

  /** `setField` keeps the registry well formed: every field keeps a column and its indexes stay distinct. */
  lemma SetFieldWellFormed(fields: Fields, name: string, column: string, alias: Option<string>, dbType: string)
    requires WellFormed(fields)
    ensures WellFormed(SetField(fields, name, column, alias, dbType))
  {
    var (field, index) := SplitName(name);
    var mapped := Column(column, alias, dbType);
    if index.Some? {
      var current := ColumnsOf(fields, field);
      UnsetKeys(current, "");
      AssignKeys(Unset(current, ""), index.value, mapped);
    }
  }
}
