/**
 * Column patching of the `users` table for databases created by older
 * versions: a column that is missing is added, one that exists is left alone.
 */
module Schema {
  import Ledger

  /** The two column definitions `_add_missing_column` issues. */
  datatype ColumnType = Text | IntegerDefaultZero

  /** The columns of `users`, by name, with their definitions. */
  type Columns = map<string, ColumnType>

  /** `first_logged` is added as `INTEGER DEFAULT 0`, every other column as `TEXT`. */
  function ColumnTypeFor(name: string): ColumnType
  {
    if name == "first_logged" then IntegerDefaultZero else Text
  }

  /** The columns `setup` makes sure of, in the order it patches them. */
  function LegacyColumns(): (names: seq<string>)
    ensures |names| == 4 && names[3] == "first_logged"
    ensures forall c: Ledger.Category :: c.ClaimColumn() in names
  {
    [Ledger.Category.Daily.ClaimColumn(), Ledger.Category.Weekly.ClaimColumn(), Ledger.Category.Monthly.ClaimColumn(), "first_logged"]
  }

  /** `_add_missing_column(name)`: the column exists afterwards, and existing columns keep their definitions. */
  function AddColumn(cols: Columns, name: string): (r: Columns)
    ensures r.Keys == cols.Keys + {name}
    ensures forall k :: k in cols ==> r[k] == cols[k]
    ensures name !in cols ==> r[name] == ColumnTypeFor(name)
  {
    if name in cols then cols else cols[name := ColumnTypeFor(name)]
  }

  /** `_add_missing_column` over each name in turn, as the loop in `setup` runs it. */
  function AddColumns(cols: Columns, names: seq<string>): (r: Columns)
    ensures forall i :: 0 <= i < |names| ==> names[i] in r
    ensures forall k :: k in cols ==> k in r && r[k] == cols[k]
  {
    if names == [] then cols
    else AddColumn(AddColumns(cols, names[..|names| - 1]), names[|names| - 1])
  }

  /** After patching, every name is a column, no other column appears, and existing columns keep their definitions. */
  lemma {:induction false} AddColumnsSpec(cols: Columns, names: seq<string>)
    ensures AddColumns(cols, names).Keys == cols.Keys + set n | n in names
    ensures forall k :: k in cols ==> AddColumns(cols, names)[k] == cols[k]
    ensures forall k :: k in AddColumns(cols, names) && k !in cols ==> AddColumns(cols, names)[k] == ColumnTypeFor(k)
  {
    if names != [] {
      var init := names[..|names| - 1];
      AddColumnsSpec(cols, init);
      assert names == init + [names[|names| - 1]];
      assert (set n | n in names) == (set n | n in init) + {names[|names| - 1]};
    }
  }

  /** Patching a table that already has every name changes nothing. */
  lemma {:induction false} AddColumnsPresent(cols: Columns, names: seq<string>)
    requires forall i :: 0 <= i < |names| ==> names[i] in cols
    ensures AddColumns(cols, names) == cols
  {
    if names != [] {
      AddColumnsPresent(cols, names[..|names| - 1]);
    }
  }

  /** Running the patch twice, as on a restart, gives the same columns as running it once. */
  lemma AddColumnsIdempotent(cols: Columns, names: seq<string>)
    ensures AddColumns(AddColumns(cols, names), names) == AddColumns(cols, names)
  {
    AddColumnsSpec(cols, names);
    var once := AddColumns(cols, names);
    assert forall i :: 0 <= i < |names| ==> names[i] in once;
    AddColumnsPresent(once, names);
  }

  /** The state `setup` leaves the `users` columns in. */
  predicate HasLegacyColumns(cols: Columns)
  {
    forall i :: 0 <= i < |LegacyColumns()| ==> LegacyColumns()[i] in cols
  }
}
