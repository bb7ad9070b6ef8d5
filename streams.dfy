/** The activity stream's record normalisation: after the base class's key
    clean-up, a table of fields is cast to `int` or `float`, a table of date
    fields is re-rendered in one canonical format, and `Reference_Trans` is
    blanked. */
module Streams {
  import opened Values
  import opened Dicts
  import opened Decimal
  import Client

  /** `pendulum.from_format(s, fmt).format("YYYY-MM-DD HH:mm:ss")`, `None`
      when the string does not match the format. */
  type Reformat = (string, string) -> Option<string>

  const StreamName: string := "activity"

  const ReferenceTrans: string := "Reference_Trans"

  /** The fields cast by `set_none_or_cast`, in the order they are cast. */
  const CastTable: seq<(string, PyType)> := [
    ("Trans_ID", IntType),
    ("User_ID", IntType),
    ("Merchant_ID", IntType),
    ("Trans_Amount", FloatType),
    ("Commission", FloatType),
    ("Voided", IntType),
    ("Locked", IntType),
    ("Merchant_Defined_Type", IntType),
    ("Store_ID", IntType)]

  /** The date fields and the format each arrives in. */
  const DateTable: seq<(string, string)> := [
    ("Trans_Date", "MM/DD/YYYY hh:mm:ss A"),
    ("Reversal_Date", "YYYY-MM-DD HH:mm:ss.S"),
    ("Click_Date", "YYYY-MM-DD HH:mm:ss.SSS"),
    ("Lock_Date", "YYYY-MM-DD")]

  predicate Distinct(ns: seq<string>)
  {
    forall i, j :: 0 <= i < j < |ns| ==> ns[i] != ns[j]
  }

  /** The names after the first of a table without repeats are again without
      repeats, and do not include the first. */
  lemma DistinctTail<T>(table: seq<(string, T)>)
    requires table != [] && Distinct(KeySeq(table))
    ensures KeySeq(table) == [table[0].0] + KeySeq(table[1..])
    ensures Distinct(KeySeq(table[1..])) && table[0].0 !in KeySeq(table[1..])
  {
    var ns, tl := KeySeq(table), KeySeq(table[1..]);
    assert ns == [table[0].0] + tl;
    forall i, j | 0 <= i < j < |tl| ensures tl[i] != tl[j] {
      assert tl[i] == ns[i + 1] && tl[j] == ns[j + 1];
    }
    forall i | 0 <= i < |tl| ensures tl[i] != table[0].0 {
      assert tl[i] == ns[i + 1];
    }
  }

  /** No field is listed twice, no field is in both tables, and
      `Reference_Trans` is in neither. */
  predicate WellFormedTables(casts: seq<(string, PyType)>, dates: seq<(string, string)>)
  {
    && Distinct(KeySeq(casts))
    && Distinct(KeySeq(dates))
    && (forall i :: 0 <= i < |casts| ==> casts[i].0 !in KeySeq(dates) && casts[i].0 != ReferenceTrans)
    && (forall i :: 0 <= i < |dates| ==> dates[i].0 !in KeySeq(casts) && dates[i].0 != ReferenceTrans)
  }

  lemma CastNamesDistinct()
    ensures Distinct(KeySeq(CastTable))
  {
    var ns := KeySeq(CastTable);
    assert ns == ["Trans_ID", "User_ID", "Merchant_ID", "Trans_Amount", "Commission",
                  "Voided", "Locked", "Merchant_Defined_Type", "Store_ID"];
  }

  lemma DateNamesDistinct()
    ensures Distinct(KeySeq(DateTable))
  {
    assert KeySeq(DateTable) == ["Trans_Date", "Reversal_Date", "Click_Date", "Lock_Date"];
  }

  lemma CastNamesOutside()
    ensures forall i :: 0 <= i < |CastTable| ==> CastTable[i].0 !in KeySeq(DateTable) && CastTable[i].0 != ReferenceTrans
  {
    var ds := KeySeq(DateTable);
    assert ds == ["Trans_Date", "Reversal_Date", "Click_Date", "Lock_Date"];
    forall i | 0 <= i < |CastTable| ensures CastTable[i].0 !in ds && CastTable[i].0 != ReferenceTrans {
      assert i == 0 || i == 1 || i == 2 || i == 3 || i == 4 || i == 5 || i == 6 || i == 7 || i == 8;
    }
  }

  lemma DateNamesOutside()
    ensures forall i :: 0 <= i < |DateTable| ==> DateTable[i].0 !in KeySeq(CastTable) && DateTable[i].0 != ReferenceTrans
  {
    var cs := KeySeq(CastTable);
    assert cs == ["Trans_ID", "User_ID", "Merchant_ID", "Trans_Amount", "Commission",
                  "Voided", "Locked", "Merchant_Defined_Type", "Store_ID"];
    forall i | 0 <= i < |DateTable| ensures DateTable[i].0 !in cs && DateTable[i].0 != ReferenceTrans {
      assert i == 0 || i == 1 || i == 2 || i == 3;
    }
  }

  /** The activity stream's tables are well formed. */
  lemma TablesWellFormed()
    ensures WellFormedTables(CastTable, DateTable)
  {
    CastNamesDistinct();
    DateNamesDistinct();
    CastNamesOutside();
    DateNamesOutside();
  }

  // ---------------------------------------------------------------------------
  // The cast pass

  /** One step of the cast loop: a field that is present is replaced by
      `set_none_or_cast` of its value; an absent field is skipped. */
  function CastField(d: Dict<Value>, name: string, t: PyType, fl: Floats): Result<Dict<Value>>
  {
    match Get(d, name)
    case None => Ok(d)
    case Some(v) =>
      match Client.SetNoneOrCast(v, t, fl)
      case Ok(c) => Ok(Set(d, name, c))
      case Err(e) => Err(e)
  }

  /** A cast step keeps the keys and their order, rewrites only its own field,
      and leaves an absent field absent. */
  lemma CastFieldFacts(d: Dict<Value>, name: string, t: PyType, fl: Floats)
    requires CastField(d, name, t, fl).Ok?
    ensures var d1 := CastField(d, name, t, fl).value;
      && KeySeq(d1) == KeySeq(d) && Keys(d1) == Keys(d)
      && (forall f :: f != name ==> Get(d1, f) == Get(d, f))
      && (Get(d, name).None? ==> Get(d1, name).None?)
      && (Get(d, name).Some? ==> Get(d1, name) == Some(Client.SetNoneOrCast(Get(d, name).value, t, fl).value))
  {
    if Get(d, name).Some? {
      var c := Client.SetNoneOrCast(Get(d, name).value, t, fl).value;
      SetKeys(d, name, c);
      SetGet(d, name, c);
    }
  }

  /** The cast loop over `table`, stopping at the first error. */
  function CastFields(d: Dict<Value>, table: seq<(string, PyType)>, fl: Floats): Result<Dict<Value>>
    decreases |table|
  {
    if table == [] then Ok(d)
    else
      match CastField(d, table[0].0, table[0].1, fl)
      case Err(e) => Err(e)
      case Ok(d1) => CastFields(d1, table[1..], fl)
  }

  /** A field's value casts without error (an absent field trivially does). */
  predicate CastsCleanly(v: Option<Value>, t: PyType, fl: Floats)
  {
    v.None? || Client.SetNoneOrCast(v.value, t, fl).Ok?
  }

  /** The cast pass keeps the keys and their order, and leaves every field
      outside its table alone. */
  lemma {:induction false} CastFieldsFrame(d: Dict<Value>, table: seq<(string, PyType)>, fl: Floats)
    requires CastFields(d, table, fl).Ok?
    ensures KeySeq(CastFields(d, table, fl).value) == KeySeq(d)
    ensures Keys(CastFields(d, table, fl).value) == Keys(d)
    ensures forall f :: f !in KeySeq(table) ==> Get(CastFields(d, table, fl).value, f) == Get(d, f)
    decreases |table|
  {
    if table != [] {
      var d1 := CastField(d, table[0].0, table[0].1, fl).value;
      assert KeySeq(table) == [table[0].0] + KeySeq(table[1..]);
      CastFieldFacts(d, table[0].0, table[0].1, fl);
      CastFieldsFrame(d1, table[1..], fl);
    }
  }

  /** Where the pass succeeds, each listed field present in the input holds
      `set_none_or_cast` of its input value, and each absent one stays absent. */
  lemma {:induction false} CastFieldsAt(d: Dict<Value>, table: seq<(string, PyType)>, fl: Floats, j: nat)
    requires Distinct(KeySeq(table)) && j < |table|
    requires CastFields(d, table, fl).Ok?
    ensures var f, out := table[j].0, CastFields(d, table, fl).value;
      (Get(d, f).None? ==> Get(out, f).None?) &&
      (Get(d, f).Some? ==> Get(out, f).Some? && Client.SetNoneOrCast(Get(d, f).value, table[j].1, fl) == Ok(Get(out, f).value))
    decreases |table|
  {
    var d1 := CastField(d, table[0].0, table[0].1, fl).value;
    DistinctTail(table);
    CastFieldFacts(d, table[0].0, table[0].1, fl);
    assert CastFields(d, table, fl) == CastFields(d1, table[1..], fl);
    if j == 0 {
      CastFieldsFrame(d1, table[1..], fl);
    } else {
      assert table[j] == table[1..][j - 1] && KeySeq(table[1..])[j - 1] == table[j].0;
      assert Get(d1, table[j].0) == Get(d, table[j].0);
      CastFieldsAt(d1, table[1..], fl, j - 1);
    }
  }

  /** A listed field whose value does not cast makes the whole pass fail. */
  lemma {:induction false} CastFieldsFails(d: Dict<Value>, table: seq<(string, PyType)>, fl: Floats, j: nat)
    requires Distinct(KeySeq(table)) && j < |table|
    requires !CastsCleanly(Get(d, table[j].0), table[j].1, fl)
    ensures CastFields(d, table, fl).Err?
    decreases |table|
  {
    if j > 0 && CastField(d, table[0].0, table[0].1, fl).Ok? {
      var d1 := CastField(d, table[0].0, table[0].1, fl).value;
      DistinctTail(table);
      assert table[j] == table[1..][j - 1] && KeySeq(table[1..])[j - 1] == table[j].0;
      CastFieldFacts(d, table[0].0, table[0].1, fl);
      CastFieldsFails(d1, table[1..], fl, j - 1);
    }
  }

  /** When every listed field casts, the pass succeeds. */
  lemma {:induction false} CastFieldsSucceeds(d: Dict<Value>, table: seq<(string, PyType)>, fl: Floats)
    requires Distinct(KeySeq(table))
    requires forall j :: 0 <= j < |table| ==> CastsCleanly(Get(d, table[j].0), table[j].1, fl)
    ensures CastFields(d, table, fl).Ok?
    decreases |table|
  {
    if table != [] {
      assert CastsCleanly(Get(d, table[0].0), table[0].1, fl);
      var d1 := CastField(d, table[0].0, table[0].1, fl).value;
      DistinctTail(table);
      CastFieldFacts(d, table[0].0, table[0].1, fl);
      forall j | 0 <= j < |table[1..]|
        ensures CastsCleanly(Get(d1, table[1..][j].0), table[1..][j].1, fl)
      {
        assert table[1..][j] == table[j + 1] && KeySeq(table[1..])[j] == table[j + 1].0;
        assert Get(d1, table[j + 1].0) == Get(d, table[j + 1].0);
        assert CastsCleanly(Get(d, table[j + 1].0), table[j + 1].1, fl);
      }
      assert CastFields(d, table, fl) == CastFields(d1, table[1..], fl);
      CastFieldsSucceeds(d1, table[1..], fl);
    }
  }

  // ---------------------------------------------------------------------------
  // The date pass

  /** What a date field becomes: `None` and `""` stay as they are; any other
      string is parsed with `fmt` and re-rendered; anything else cannot be parsed. */
  function ReformatValue(v: Value, fmt: string, reformat: Reformat): (r: Result<Value>)
    ensures v == Null || v == Str("") ==> r == Ok(v)
    ensures v.Str? && v.s != "" ==>
      (r.Ok? <==> reformat(v.s, fmt).Some?) && (r.Ok? ==> r.value == Str(reformat(v.s, fmt).value))
    ensures r.Err? ==> r.error == DateFormatError(v, fmt)
    ensures v.Int? || v.Num? ==> r.Err?
  {
    if v == Null || v == Str("") then Ok(v)
    else
      match v
      case Str(s) =>
        (match reformat(s, fmt)
         case Some(out) => Ok(Str(out))
         case None => Err(DateFormatError(v, fmt)))
      case _ => Err(DateFormatError(v, fmt))
  }

  /** One step of the date loop: a field that is present and neither `None`
      nor `""` is rewritten; any other field is left untouched. */
  function ReformatField(d: Dict<Value>, name: string, fmt: string, reformat: Reformat): Result<Dict<Value>>
  {
    match Get(d, name)
    case None => Ok(d)
    case Some(v) =>
      if v != Null && v != Str("") then
        match ReformatValue(v, fmt, reformat)
        case Ok(nv) => Ok(Set(d, name, nv))
        case Err(e) => Err(e)
      else Ok(d)
  }

  /** A date step keeps the keys and their order, rewrites only its own field,
      and leaves an absent field absent. */
  lemma ReformatFieldFacts(d: Dict<Value>, name: string, fmt: string, reformat: Reformat)
    requires ReformatField(d, name, fmt, reformat).Ok?
    ensures var d1 := ReformatField(d, name, fmt, reformat).value;
      && KeySeq(d1) == KeySeq(d) && Keys(d1) == Keys(d)
      && (forall f :: f != name ==> Get(d1, f) == Get(d, f))
      && (Get(d, name).None? ==> Get(d1, name).None?)
      && (Get(d, name).Some? ==> Get(d1, name) == Some(ReformatValue(Get(d, name).value, fmt, reformat).value))
  {
    var v := Get(d, name);
    if v.Some? && v.value != Null && v.value != Str("") {
      var nv := ReformatValue(v.value, fmt, reformat).value;
      SetKeys(d, name, nv);
      SetGet(d, name, nv);
    }
  }

  /** The date loop over `table`, stopping at the first error. */
  function ReformatDates(d: Dict<Value>, table: seq<(string, string)>, reformat: Reformat): Result<Dict<Value>>
    decreases |table|
  {
    if table == [] then Ok(d)
    else
      match ReformatField(d, table[0].0, table[0].1, reformat)
      case Err(e) => Err(e)
      case Ok(d1) => ReformatDates(d1, table[1..], reformat)
  }

  /** A date field's value can be rewritten (an absent field trivially can). */
  predicate ReformatsCleanly(v: Option<Value>, fmt: string, reformat: Reformat)
  {
    v.None? || ReformatValue(v.value, fmt, reformat).Ok?
  }

  /** The date pass keeps the keys and their order, and leaves every field
      outside its table alone. */
  lemma {:induction false} ReformatDatesFrame(d: Dict<Value>, table: seq<(string, string)>, reformat: Reformat)
    requires ReformatDates(d, table, reformat).Ok?
    ensures KeySeq(ReformatDates(d, table, reformat).value) == KeySeq(d)
    ensures Keys(ReformatDates(d, table, reformat).value) == Keys(d)
    ensures forall f :: f !in KeySeq(table) ==> Get(ReformatDates(d, table, reformat).value, f) == Get(d, f)
    decreases |table|
  {
    if table != [] {
      var d1 := ReformatField(d, table[0].0, table[0].1, reformat).value;
      assert KeySeq(table) == [table[0].0] + KeySeq(table[1..]);
      ReformatFieldFacts(d, table[0].0, table[0].1, reformat);
      ReformatDatesFrame(d1, table[1..], reformat);
    }
  }

  /** Where the pass succeeds, each listed field present in the input holds
      `ReformatValue` of its input value, and each absent one stays absent. */
  lemma {:induction false} ReformatDatesAt(d: Dict<Value>, table: seq<(string, string)>, reformat: Reformat, j: nat)
    requires Distinct(KeySeq(table)) && j < |table|
    requires ReformatDates(d, table, reformat).Ok?
    ensures var f, out := table[j].0, ReformatDates(d, table, reformat).value;
      (Get(d, f).None? ==> Get(out, f).None?) &&
      (Get(d, f).Some? ==> Get(out, f).Some? && ReformatValue(Get(d, f).value, table[j].1, reformat) == Ok(Get(out, f).value))
    decreases |table|
  {
    var d1 := ReformatField(d, table[0].0, table[0].1, reformat).value;
    DistinctTail(table);
    ReformatFieldFacts(d, table[0].0, table[0].1, reformat);
    assert ReformatDates(d, table, reformat) == ReformatDates(d1, table[1..], reformat);
    if j == 0 {
      ReformatDatesFrame(d1, table[1..], reformat);
    } else {
      assert table[j] == table[1..][j - 1] && KeySeq(table[1..])[j - 1] == table[j].0;
      assert Get(d1, table[j].0) == Get(d, table[j].0);
      ReformatDatesAt(d1, table[1..], reformat, j - 1);
    }
  }

  /** A listed date field whose value cannot be rewritten makes the pass fail. */
  lemma {:induction false} ReformatDatesFails(d: Dict<Value>, table: seq<(string, string)>, reformat: Reformat, j: nat)
    requires Distinct(KeySeq(table)) && j < |table|
    requires !ReformatsCleanly(Get(d, table[j].0), table[j].1, reformat)
    ensures ReformatDates(d, table, reformat).Err?
    decreases |table|
  {
    if j > 0 && ReformatField(d, table[0].0, table[0].1, reformat).Ok? {
      var d1 := ReformatField(d, table[0].0, table[0].1, reformat).value;
      DistinctTail(table);
      assert table[j] == table[1..][j - 1] && KeySeq(table[1..])[j - 1] == table[j].0;
      ReformatFieldFacts(d, table[0].0, table[0].1, reformat);
      ReformatDatesFails(d1, table[1..], reformat, j - 1);
    }
  }

  /** When every listed date field can be rewritten, the pass succeeds. */
  lemma {:induction false} ReformatDatesSucceeds(d: Dict<Value>, table: seq<(string, string)>, reformat: Reformat)
    requires Distinct(KeySeq(table))
    requires forall j :: 0 <= j < |table| ==> ReformatsCleanly(Get(d, table[j].0), table[j].1, reformat)
    ensures ReformatDates(d, table, reformat).Ok?
    decreases |table|
  {
    if table != [] {
      assert ReformatsCleanly(Get(d, table[0].0), table[0].1, reformat);
      var d1 := ReformatField(d, table[0].0, table[0].1, reformat).value;
      DistinctTail(table);
      ReformatFieldFacts(d, table[0].0, table[0].1, reformat);
      forall j | 0 <= j < |table[1..]|
        ensures ReformatsCleanly(Get(d1, table[1..][j].0), table[1..][j].1, reformat)
      {
        assert table[1..][j] == table[j + 1] && KeySeq(table[1..])[j] == table[j + 1].0;
        assert Get(d1, table[j + 1].0) == Get(d, table[j + 1].0);
        assert ReformatsCleanly(Get(d, table[j + 1].0), table[j + 1].1, reformat);
      }
      assert ReformatDates(d, table, reformat) == ReformatDates(d1, table[1..], reformat);
      ReformatDatesSucceeds(d1, table[1..], reformat);
    }
  }

  // ---------------------------------------------------------------------------
  // The whole record

  /** The normalisation `ActivityStream.post_process` performs, for a cast
      table and a date table: the base-class clean-up, the cast pass, the date
      pass, then `Reference_Trans := ""`. */
  function Normalize(row: Dict<Value>, casts: seq<(string, PyType)>, dates: seq<(string, string)>,
                     fl: Floats, reformat: Reformat): Result<Dict<Value>>
  {
    match CastFields(Client.Cleaned(row), casts, fl)
    case Err(e) => Err(e)
    case Ok(d1) =>
      match ReformatDates(d1, dates, reformat)
      case Err(e) => Err(e)
      case Ok(d2) => Ok(Set(d2, ReferenceTrans, Str("")))
  }

  /** `ActivityStream.post_process` as a function of the raw row. */
  function Activity(row: Dict<Value>, fl: Floats, reformat: Reformat): Result<Dict<Value>>
  {
    Normalize(row, CastTable, DateTable, fl, reformat)
  }

  /** `Reference_Trans` is `""` in every record, whatever the input held. */
  lemma NormalizeReferenceTrans(row: Dict<Value>, casts: seq<(string, PyType)>, dates: seq<(string, string)>,
                                fl: Floats, reformat: Reformat)
    requires Normalize(row, casts, dates, fl, reformat).Ok?
    ensures Get(Normalize(row, casts, dates, fl, reformat).value, ReferenceTrans) == Some(Str(""))
  {
    var d1 := CastFields(Client.Cleaned(row), casts, fl).value;
    SetGet(ReformatDates(d1, dates, reformat).value, ReferenceTrans, Str(""));
  }

  /** The output's keys are the cleaned input's keys, in the same order, with
      `Reference_Trans` appended when it was not already there; so cast and
      date fields missing from the row stay missing. */
  lemma NormalizeKeys(row: Dict<Value>, casts: seq<(string, PyType)>, dates: seq<(string, string)>,
                      fl: Floats, reformat: Reformat)
    requires Normalize(row, casts, dates, fl, reformat).Ok?
    ensures var base, out := Client.Cleaned(row), Normalize(row, casts, dates, fl, reformat).value;
      UniqueKeys(out) &&
      Keys(out) == Keys(base) + {ReferenceTrans} &&
      KeySeq(out) == KeySeq(base) + (if ReferenceTrans in Keys(base) then [] else [ReferenceTrans])
  {
    var base := Client.Cleaned(row);
    Client.CleanedKeys(row);
    CastFieldsFrame(base, casts, fl);
    var d1 := CastFields(base, casts, fl).value;
    ReformatDatesFrame(d1, dates, reformat);
    SetKeys(ReformatDates(d1, dates, reformat).value, ReferenceTrans, Str(""));
  }

  /** Each cast-table field present in the cleaned row holds the
      `set_none_or_cast` of its cleaned value: `""` becomes `None`, a decimal
      string in an `int` field becomes that integer. */
  lemma NormalizeCastField(row: Dict<Value>, casts: seq<(string, PyType)>, dates: seq<(string, string)>,
                           fl: Floats, reformat: Reformat, j: nat)
    requires WellFormedTables(casts, dates) && j < |casts|
    requires Normalize(row, casts, dates, fl, reformat).Ok?
    ensures var f, base, out := casts[j].0, Client.Cleaned(row), Normalize(row, casts, dates, fl, reformat).value;
      (Get(base, f).None? ==> Get(out, f).None?) &&
      (Get(base, f).Some? ==> Get(out, f).Some? && Client.SetNoneOrCast(Get(base, f).value, casts[j].1, fl) == Ok(Get(out, f).value)) &&
      (Get(base, f) == Some(Str("")) ==> Get(out, f) == Some(Null)) &&
      (casts[j].1 == IntType && Get(base, f).Some? && Get(base, f).value.Str? && Get(base, f).value.s != "" ==>
         var s := Get(base, f).value.s;
         ParseInt(s).Some? && Get(out, f) == Some(Int(ParseInt(s).value)))
  {
    var base := Client.Cleaned(row);
    CastFieldsAt(base, casts, fl, j);
    var d1 := CastFields(base, casts, fl).value;
    ReformatDatesFrame(d1, dates, reformat);
    SetGet(ReformatDates(d1, dates, reformat).value, ReferenceTrans, Str(""));
  }

  /** Each date-table field present in the cleaned row holds `ReformatValue`
      of its cleaned value: `None` and `""` are left untouched, and a non-empty
      string is replaced by its re-rendering. */
  lemma NormalizeDateField(row: Dict<Value>, casts: seq<(string, PyType)>, dates: seq<(string, string)>,
                           fl: Floats, reformat: Reformat, j: nat)
    requires WellFormedTables(casts, dates) && j < |dates|
    requires Normalize(row, casts, dates, fl, reformat).Ok?
    ensures var f, base, out := dates[j].0, Client.Cleaned(row), Normalize(row, casts, dates, fl, reformat).value;
      (Get(base, f).None? ==> Get(out, f).None?) &&
      (Get(base, f).Some? ==> Get(out, f).Some? && ReformatValue(Get(base, f).value, dates[j].1, reformat) == Ok(Get(out, f).value)) &&
      (Get(base, f) == Some(Null) || Get(base, f) == Some(Str("")) ==> Get(out, f) == Get(base, f)) &&
      (Get(base, f).Some? && Get(base, f).value.Str? && Get(base, f).value.s != "" ==>
         var s := Get(base, f).value.s;
         reformat(s, dates[j].1).Some? && Get(out, f) == Some(Str(reformat(s, dates[j].1).value)))
  {
    var base := Client.Cleaned(row);
    CastFieldsFrame(base, casts, fl);
    var d1 := CastFields(base, casts, fl).value;
    ReformatDatesAt(d1, dates, reformat, j);
    SetGet(ReformatDates(d1, dates, reformat).value, ReferenceTrans, Str(""));
  }

  /** Every other field keeps the value the base-class clean-up gave it. */
  lemma NormalizeOtherField(row: Dict<Value>, casts: seq<(string, PyType)>, dates: seq<(string, string)>,
                            fl: Floats, reformat: Reformat, f: string)
    requires f !in KeySeq(casts) && f !in KeySeq(dates) && f != ReferenceTrans
    requires Normalize(row, casts, dates, fl, reformat).Ok?
    ensures Get(Normalize(row, casts, dates, fl, reformat).value, f) == Get(Client.Cleaned(row), f)
  {
    var base := Client.Cleaned(row);
    CastFieldsFrame(base, casts, fl);
    var d1 := CastFields(base, casts, fl).value;
    ReformatDatesFrame(d1, dates, reformat);
    SetGet(ReformatDates(d1, dates, reformat).value, ReferenceTrans, Str(""));
  }

  /** The record is produced exactly when every present cast field casts and
      every present date field can be rewritten; otherwise the call raises. */
  lemma NormalizeSucceedsIff(row: Dict<Value>, casts: seq<(string, PyType)>, dates: seq<(string, string)>,
                             fl: Floats, reformat: Reformat)
    requires WellFormedTables(casts, dates)
    ensures var base := Client.Cleaned(row);
      Normalize(row, casts, dates, fl, reformat).Ok? <==>
        (forall j :: 0 <= j < |casts| ==> CastsCleanly(Get(base, casts[j].0), casts[j].1, fl)) &&
        (forall j :: 0 <= j < |dates| ==> ReformatsCleanly(Get(base, dates[j].0), dates[j].1, reformat))
  {
    var base := Client.Cleaned(row);
    if !forall j :: 0 <= j < |casts| ==> CastsCleanly(Get(base, casts[j].0), casts[j].1, fl) {
      var j :| 0 <= j < |casts| && !CastsCleanly(Get(base, casts[j].0), casts[j].1, fl);
      CastFieldsFails(base, casts, fl, j);
    } else {
      CastFieldsSucceeds(base, casts, fl);
      var d1 := CastFields(base, casts, fl).value;
      CastFieldsFrame(base, casts, fl);
      forall j | 0 <= j < |dates| ensures Get(d1, dates[j].0) == Get(base, dates[j].0) {
        assert dates[j].0 !in KeySeq(casts);
      }
      if !forall j :: 0 <= j < |dates| ==> ReformatsCleanly(Get(base, dates[j].0), dates[j].1, reformat) {
        var j :| 0 <= j < |dates| && !ReformatsCleanly(Get(base, dates[j].0), dates[j].1, reformat);
        ReformatDatesFails(d1, dates, reformat, j);
      } else {
        ReformatDatesSucceeds(d1, dates, reformat);
      }
    }
  }

  /** A non-numeric string in an `int` field of the activity stream is an
      error, not a silent `None`. */
  lemma ActivityRejectsNonNumeric(row: Dict<Value>, fl: Floats, reformat: Reformat, j: nat)
    requires j < |CastTable| && CastTable[j].1 == IntType
    requires Get(Client.Cleaned(row), CastTable[j].0).Some?
    requires var v := Get(Client.Cleaned(row), CastTable[j].0).value; v.Str? && v.s != "" && ParseInt(v.s).None?
    ensures Activity(row, fl, reformat).Err?
  {
    TablesWellFormed();
    CastFieldsFails(Client.Cleaned(row), CastTable, fl, j);
  }

  /** `ActivityStream.post_process`: the base-class clean-up, the cast loop,
      the date loop, then the `Reference_Trans` override. */
  method PostProcess(row: Dict<Value>, fl: Floats, reformat: Reformat) returns (r: Result<Dict<Value>>)
    ensures r == Activity(row, fl, reformat)
    ensures r.Ok? ==> Get(r.value, ReferenceTrans) == Some(Str(""))
    ensures r.Ok? ==> Keys(r.value) == Keys(Client.Cleaned(row)) + {ReferenceTrans}
  {
    var newRow := Client.PostProcess(row);
    var casted := CastPass(newRow, CastTable, fl);
    if casted.Err? {
      return Err(casted.error);
    }
    var dated := DatePass(casted.value, DateTable, reformat);
    if dated.Err? {
      return Err(dated.error);
    }
    r := Ok(Set(dated.value, ReferenceTrans, Str("")));
    NormalizeKeys(row, CastTable, DateTable, fl, reformat);
    NormalizeReferenceTrans(row, CastTable, DateTable, fl, reformat);
  }

  /** The cast loop of `post_process`: each listed field present in the row
      is replaced by its `set_none_or_cast`, and the first failure raises. */
  method CastPass(row: Dict<Value>, table: seq<(string, PyType)>, fl: Floats) returns (r: Result<Dict<Value>>)
    ensures r == CastFields(row, table, fl)
  {
    var newRow := row;
    for i := 0 to |table|
      invariant CastFields(row, table, fl) == CastFields(newRow, table[i..], fl)
    {
      var (fieldName, fieldType) := table[i];
      assert table[i..][1..] == table[i + 1..];
      if fieldName in Keys(newRow) {
        var cast := Client.SetNoneOrCast(Get(newRow, fieldName).value, fieldType, fl);
        if cast.Err? {
          return Err(cast.error);
        }
        newRow := Set(newRow, fieldName, cast.value);
      }
    }
    r := Ok(newRow);
  }

  /** The date loop of `post_process`: each listed field holding a non-empty
      value is re-rendered in its format, and the first failure raises. */
  method DatePass(row: Dict<Value>, table: seq<(string, string)>, reformat: Reformat) returns (r: Result<Dict<Value>>)
    ensures r == ReformatDates(row, table, reformat)
  {
    var newRow := row;
    for i := 0 to |table|
      invariant ReformatDates(row, table, reformat) == ReformatDates(newRow, table[i..], reformat)
    {
      var (fieldName, format) := table[i];
      assert table[i..][1..] == table[i + 1..];
      if fieldName in Keys(newRow) && Get(newRow, fieldName).value != Null && Get(newRow, fieldName).value != Str("") {
        var reformatted := ReformatValue(Get(newRow, fieldName).value, format, reformat);
        if reformatted.Err? {
          return Err(reformatted.error);
        }
        newRow := Set(newRow, fieldName, reformatted.value);
      }
    }
    r := Ok(newRow);
  }
}
