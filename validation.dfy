/**
 * `validate_csv_content`: the upload is refused unless the header names the
 * columns `date`, `description` and `amount`.
 */
module Validation {
  import opened Text

  /** The columns every CSV must have, in the order the message lists them. */
  const Required: seq<string> := ["date", "description", "amount"]

  /** `xs` is `ys` with some elements left out, order kept. */
  predicate IsSubsequence(xs: seq<string>, ys: seq<string>)
    decreases |ys|
  {
    if |xs| == 0 then true
    else if |ys| == 0 then false
    else if xs[0] == ys[0] then IsSubsequence(xs[1..], ys[1..])
    else IsSubsequence(xs, ys[1..])
  }

  /** The names in `names` that are not columns, in the order of `names`. */
  function Absent(names: seq<string>, columns: seq<string>): (missing: seq<string>)
    ensures forall x :: x in missing <==> x in names && x !in columns
    ensures IsSubsequence(missing, names)
    decreases |names|
  {
    if |names| == 0 then []
    else
      var rest := Absent(names[1..], columns);
      if names[0] in columns then rest
      else
        assert ([names[0]] + rest)[1..] == rest;
        [names[0]] + rest
  }

  /** The required columns that the header lacks. */
  function MissingColumns(columns: seq<string>): (missing: seq<string>)
    ensures forall x :: x in missing <==> x in Required && x !in columns
    ensures IsSubsequence(missing, Required)
  {
    Absent(Required, columns)
  }

  /** `validate_csv_content(df)` on the header `columns`: no error exactly
      when every required column is present, otherwise one message naming
      the missing ones, comma-separated, in the order of `Required`. */
  function ValidateColumns(columns: seq<string>): (errors: seq<string>)
    ensures |errors| <= 1
    ensures errors == [] <==> forall x | x in Required :: x in columns
    ensures errors != [] ==>
      errors[0] == "Missing required columns: " + Join(MissingColumns(columns), ", ")
  {
    var missing := MissingColumns(columns);
    if |missing| > 0 then
      ["Missing required columns: " + Join(missing, ", ")]
    else []
  }

  /** A header lacking `amount` (only) yields exactly one message naming it. */
  lemma MissingAmountExample()
    ensures ValidateColumns(["date", "description", "currency"])
         == ["Missing required columns: " + "amount"]
  {
    var columns := ["date", "description", "currency"];
    assert Required[2..][1..] == [];
    assert "amount" !in columns;
    assert Absent(Required[2..], columns) == ["amount"];
    assert Required[1..][1..] == Required[2..];
    assert Absent(Required[1..], columns) == ["amount"];
    assert MissingColumns(columns) == ["amount"];
    assert Join(["amount"], ", ") == "amount";
  }

  /** Several missing columns are listed in the required order. */
  lemma MissingSeveralExample()
    ensures ValidateColumns(["amount", "balance"])
         == ["Missing required columns: " + "date" + ", " + "description"]
  {
    var columns := ["amount", "balance"];
    assert Required[2..][1..] == [];
    assert Required[1..][1..] == Required[2..];
    assert "date" !in columns && "description" !in columns;
    assert Absent(Required[2..], columns) == [];
    assert Absent(Required[1..], columns) == ["description"];
    assert Absent(Required, columns) == ["date", "description"];
    var missing := ["date", "description"];
    assert Join(missing, ", ") == "date" + ", " + "description" by {
      assert missing[1..] == ["description"];
    }
    var prefix := "Missing required columns: ";
    assert prefix + ("date" + ", " + "description") == prefix + "date" + ", " + "description";
  }
}
