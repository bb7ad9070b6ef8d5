/** A worked example of the activity stream's normalisation: the response
    whose header line is `Trans ID|User ID|Trans Amount` and whose one data
    line is `55|9|12.50`. */
module ActivityExamples {
  import opened Values
  import opened Dicts
  import opened Decimal
  import Client
  import opened Streams

  /** Casting fields none of which is present changes nothing. */
  lemma {:induction false} CastAbsent(d: Dict<Value>, table: seq<(string, PyType)>, fl: Floats)
    requires forall i :: 0 <= i < |table| ==> table[i].0 !in Keys(d)
    ensures CastFields(d, table, fl) == Ok(d)
    decreases |table|
  {
    if table != [] {
      CastAbsent(d, table[1..], fl);
    }
  }

  /** Reformatting date fields none of which is present changes nothing. */
  lemma {:induction false} ReformatAbsent(d: Dict<Value>, table: seq<(string, string)>, reformat: Reformat)
    requires forall i :: 0 <= i < |table| ==> table[i].0 !in Keys(d)
    ensures ReformatDates(d, table, reformat) == Ok(d)
    decreases |table|
  {
    if table != [] {
      ReformatAbsent(d, table[1..], reformat);
    }
  }

  /** A row of three entries whose keys normalise to three distinct names is
      cleaned entry for entry. */
  lemma CleanedThree(row: Dict<Value>, ks: seq<string>)
    requires |row| == 3 && |ks| == 3
    requires Client.NormalizeKey(row[0].0) == ks[0] && Client.NormalizeKey(row[1].0) == ks[1]
    requires Client.NormalizeKey(row[2].0) == ks[2]
    requires ks[0] != ks[1] && ks[0] != ks[2] && ks[1] != ks[2]
    ensures Client.Cleaned(row) == [(ks[0], row[0].1), (ks[1], row[1].1), (ks[2], row[2].1)]
  {
    var c1 := [(ks[0], row[0].1)];
    var c2 := c1 + [(ks[1], row[1].1)];
    assert row[..1][..0] == [];
    Client.CleanedSnocFresh(row[..1], []);
    assert row[..2][..1] == row[..1];
    Client.CleanedSnocFresh(row[..2], c1);
    assert row[..3] == row;
    Client.CleanedSnocFresh(row, c2);
  }

  /** A two-word column name has its space replaced. */
  lemma NormalizeTwoWords(a: string, b: string)
    requires ' ' !in a && ' ' !in b
    ensures Client.NormalizeKey(a + " " + b) == a + "_" + b
  {
    Client.NormalizeKeyAppend(a + " ", b);
    Client.NormalizeKeyAppend(a, " ");
    Client.NormalizeKeyFixes(a);
    Client.NormalizeKeyFixes(b);
  }

  lemma TransIdKey()
    ensures Client.NormalizeKey("Trans ID") == "Trans_ID"
  {
    assert "Trans ID" == "Trans" + " " + "ID" && "Trans_ID" == "Trans" + "_" + "ID";
    NormalizeTwoWords("Trans", "ID");
  }

  lemma UserIdKey()
    ensures Client.NormalizeKey("User ID") == "User_ID"
  {
    assert "User ID" == "User" + " " + "ID" && "User_ID" == "User" + "_" + "ID";
    NormalizeTwoWords("User", "ID");
  }

  lemma TransAmountKey()
    ensures Client.NormalizeKey("Trans Amount") == "Trans_Amount"
  {
    assert "Trans Amount" == "Trans" + " " + "Amount" && "Trans_Amount" == "Trans" + "_" + "Amount";
    NormalizeTwoWords("Trans", "Amount");
  }

  /** One step of the cast loop. */
  lemma CastUnfold(d: Dict<Value>, table: seq<(string, PyType)>, fl: Floats, d1: Dict<Value>)
    requires table != [] && CastField(d, table[0].0, table[0].1, fl) == Ok(d1)
    ensures CastFields(d, table, fl) == CastFields(d1, table[1..], fl)
  {
  }

  /** Five consecutive loop steps: four present fields, then fields that are all absent. */
  lemma CastSteps(d0: Dict<Value>, d1: Dict<Value>, d2: Dict<Value>, d3: Dict<Value>, t: seq<(string, PyType)>, fl: Floats)
    requires |t| >= 4
    requires CastField(d0, t[0].0, t[0].1, fl) == Ok(d1) && CastField(d1, t[1].0, t[1].1, fl) == Ok(d2)
    requires CastField(d2, t[2].0, t[2].1, fl) == Ok(d2) && CastField(d2, t[3].0, t[3].1, fl) == Ok(d3)
    requires forall i :: 4 <= i < |t| ==> t[i].0 !in Keys(d3)
    ensures CastFields(d0, t, fl) == Ok(d3)
  {
    CastUnfold(d0, t, fl, d1);
    CastUnfold(d1, t[1..], fl, d2);
    CastUnfold(d2, t[2..], fl, d2);
    CastUnfold(d2, t[3..], fl, d3);
    CastAbsent(d3, t[4..], fl);
  }

  /** The cells of a three-column row that casts cleanly: two integers and a float. */
  predicate CleanCells(a: string, b: string, c: string, fl: Floats)
  {
    ParseInt(a).Some? && ParseInt(b).Some? && c != "" && fl.parse(c).Some?
  }

  /** The three-column row as the response decoder hands it over. */
  function RawRow(a: string, b: string, c: string): Dict<Value>
  {
    [("Trans ID", Str(a)), ("User ID", Str(b)), ("Trans Amount", Str(c))]
  }

  lemma CastTransId(a: string, b: string, c: string, fl: Floats)
    requires CleanCells(a, b, c, fl)
    ensures CastField([("Trans_ID", Str(a)), ("User_ID", Str(b)), ("Trans_Amount", Str(c))], "Trans_ID", IntType, fl)
      == Ok([("Trans_ID", Int(ParseInt(a).value)), ("User_ID", Str(b)), ("Trans_Amount", Str(c))])
  {
    var d := [("Trans_ID", Str(a)), ("User_ID", Str(b)), ("Trans_Amount", Str(c))];
    FindFirst(d, "Trans_ID", 0);
    assert d[0 := ("Trans_ID", Int(ParseInt(a).value))] == [("Trans_ID", Int(ParseInt(a).value)), ("User_ID", Str(b)), ("Trans_Amount", Str(c))];
  }

  lemma CastUserId(a: string, b: string, c: string, fl: Floats)
    requires CleanCells(a, b, c, fl)
    ensures CastField([("Trans_ID", Int(ParseInt(a).value)), ("User_ID", Str(b)), ("Trans_Amount", Str(c))], "User_ID", IntType, fl)
      == Ok([("Trans_ID", Int(ParseInt(a).value)), ("User_ID", Int(ParseInt(b).value)), ("Trans_Amount", Str(c))])
  {
    var d := [("Trans_ID", Int(ParseInt(a).value)), ("User_ID", Str(b)), ("Trans_Amount", Str(c))];
    FindFirst(d, "User_ID", 1);
    assert d[1 := ("User_ID", Int(ParseInt(b).value))] == [("Trans_ID", Int(ParseInt(a).value)), ("User_ID", Int(ParseInt(b).value)), ("Trans_Amount", Str(c))];
  }

  lemma CastAmount(a: string, b: string, c: string, fl: Floats)
    requires CleanCells(a, b, c, fl)
    ensures CastField([("Trans_ID", Int(ParseInt(a).value)), ("User_ID", Int(ParseInt(b).value)), ("Trans_Amount", Str(c))], "Trans_Amount", FloatType, fl)
      == Ok([("Trans_ID", Int(ParseInt(a).value)), ("User_ID", Int(ParseInt(b).value)), ("Trans_Amount", Num(fl.parse(c).value))])
  {
    var d := [("Trans_ID", Int(ParseInt(a).value)), ("User_ID", Int(ParseInt(b).value)), ("Trans_Amount", Str(c))];
    FindFirst(d, "Trans_Amount", 2);
    assert d[2 := ("Trans_Amount", Num(fl.parse(c).value))] == [("Trans_ID", Int(ParseInt(a).value)), ("User_ID", Int(ParseInt(b).value)), ("Trans_Amount", Num(fl.parse(c).value))];
  }

  /** The record the three-column row should become, before `Reference_Trans`. */
  function Typed(a: string, b: string, c: string, fl: Floats): Dict<Value>
    requires CleanCells(a, b, c, fl)
  {
    [("Trans_ID", Int(ParseInt(a).value)), ("User_ID", Int(ParseInt(b).value)), ("Trans_Amount", Num(fl.parse(c).value))]
  }

  /** No column of the typed row is a later cast field, a date field or `Reference_Trans`. */
  lemma TypedAbsentFields(a: string, b: string, c: string, fl: Floats)
    requires CleanCells(a, b, c, fl)
    ensures var d := Typed(a, b, c, fl);
      (forall i :: 4 <= i < |CastTable| ==> CastTable[i].0 !in Keys(d)) &&
      (forall i :: 0 <= i < |DateTable| ==> DateTable[i].0 !in Keys(d)) &&
      ReferenceTrans !in Keys(d)
  {
    var d := Typed(a, b, c, fl);
    assert KeySeq(d) == ["Trans_ID", "User_ID", "Trans_Amount"];
    forall i | 4 <= i < |CastTable| ensures CastTable[i].0 !in Keys(d) {
      KeysAreKeySeq(d, CastTable[i].0);
    }
    forall i | 0 <= i < |DateTable| ensures DateTable[i].0 !in Keys(d) {
      KeysAreKeySeq(d, DateTable[i].0);
    }
    KeysAreKeySeq(d, ReferenceTrans);
  }

  /** `Merchant_ID` is not among the columns, so its loop step does nothing. */
  lemma CastMerchantAbsent(a: string, b: string, c: string, fl: Floats)
    requires CleanCells(a, b, c, fl)
    ensures var d := [("Trans_ID", Int(ParseInt(a).value)), ("User_ID", Int(ParseInt(b).value)), ("Trans_Amount", Str(c))];
      CastField(d, "Merchant_ID", IntType, fl) == Ok(d)
  {
    var d := [("Trans_ID", Int(ParseInt(a).value)), ("User_ID", Int(ParseInt(b).value)), ("Trans_Amount", Str(c))];
    assert KeySeq(d) == ["Trans_ID", "User_ID", "Trans_Amount"];
    KeysAreKeySeq(d, "Merchant_ID");
  }

  /** The cast pass turns the two integer columns into integers and the
      amount into the parsed float, skipping the absent fields. */
  lemma CastThree(a: string, b: string, c: string, fl: Floats)
    requires CleanCells(a, b, c, fl)
    ensures CastFields([("Trans_ID", Str(a)), ("User_ID", Str(b)), ("Trans_Amount", Str(c))], CastTable, fl)
      == Ok(Typed(a, b, c, fl))
  {
    var t := CastTable;
    assert t[0] == ("Trans_ID", IntType) && t[1] == ("User_ID", IntType);
    assert t[2] == ("Merchant_ID", IntType) && t[3] == ("Trans_Amount", FloatType);
    CastTransId(a, b, c, fl);
    CastUserId(a, b, c, fl);
    CastMerchantAbsent(a, b, c, fl);
    CastAmount(a, b, c, fl);
    TypedAbsentFields(a, b, c, fl);
    CastSteps([("Trans_ID", Str(a)), ("User_ID", Str(b)), ("Trans_Amount", Str(c))],
      [("Trans_ID", Int(ParseInt(a).value)), ("User_ID", Str(b)), ("Trans_Amount", Str(c))],
      [("Trans_ID", Int(ParseInt(a).value)), ("User_ID", Int(ParseInt(b).value)), ("Trans_Amount", Str(c))],
      Typed(a, b, c, fl), t, fl);
  }

  /** The three column names lose their spaces. */
  lemma CleanedRaw(a: string, b: string, c: string)
    ensures Client.Cleaned(RawRow(a, b, c)) == [("Trans_ID", Str(a)), ("User_ID", Str(b)), ("Trans_Amount", Str(c))]
  {
    TransIdKey();
    UserIdKey();
    TransAmountKey();
    CleanedThree(RawRow(a, b, c), ["Trans_ID", "User_ID", "Trans_Amount"]);
  }

  /** The three passes of the normalisation, one after the other. */
  lemma NormalizeSteps(row: Dict<Value>, casts: seq<(string, PyType)>, dates: seq<(string, string)>,
                       base: Dict<Value>, d1: Dict<Value>, d2: Dict<Value>, fl: Floats, reformat: Reformat)
    requires Client.Cleaned(row) == base
    requires CastFields(base, casts, fl) == Ok(d1)
    requires ReformatDates(d1, dates, reformat) == Ok(d2)
    requires ReferenceTrans !in Keys(d2)
    ensures Normalize(row, casts, dates, fl, reformat) == Ok(d2 + [(ReferenceTrans, Str(""))])
  {
  }

  /** A response whose header line is `Trans ID|User ID|Trans Amount` and whose
      data line holds two decimal integers and a float gives the record
      `Trans_ID`, `User_ID` as integers, `Trans_Amount` as the parsed float,
      then `Reference_Trans = ""` — for `55|9|12.50`, the record
      `{Trans_ID: 55, User_ID: 9, Trans_Amount: 12.50, Reference_Trans: ""}`. */
  lemma ActivityThreeColumns(a: string, b: string, c: string, fl: Floats, reformat: Reformat)
    requires CleanCells(a, b, c, fl)
    ensures Activity(RawRow(a, b, c), fl, reformat) == Ok(Typed(a, b, c, fl) + [(ReferenceTrans, Str(""))])
  {
    var d3 := Typed(a, b, c, fl);
    CleanedRaw(a, b, c);
    CastThree(a, b, c, fl);
    TypedAbsentFields(a, b, c, fl);
    ReformatAbsent(d3, DateTable, reformat);
    NormalizeSteps(RawRow(a, b, c), CastTable, DateTable, [("Trans_ID", Str(a)), ("User_ID", Str(b)), ("Trans_Amount", Str(c))], d3, d3, fl, reformat);
  }

  /** The integers of the example line `55|9|12.50`. */
  lemma ExampleCells(fl: Floats)
    requires fl.parse("12.50").Some?
    ensures CleanCells("55", "9", "12.50", fl)
    ensures ParseInt("55") == Some(55) && ParseInt("9") == Some(9)
  {
    ParseIntExamples();
    assert ParseInt("9") == Some(9);
  }
}
